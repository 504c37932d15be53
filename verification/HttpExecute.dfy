/** `http_parser_execute` as it is written: marks into the caller's buffer, whole runs of body
    bytes skipped at once, slices handed out at the end of a call. It is proved to report, up to
    how the slices are cut, exactly what the byte-at-a-time reading reports. */
module HttpExecute {
  import opened Wrappers
  import opened HttpTypes
  import opened UrlAutomaton
  import opened HttpStep
  import opened HttpInvariant
  import opened HttpTrace

  // ---- the byte-at-a-time reading ----

  function Then(r: RunResult, t: RunResult): RunResult {
    RunResult(t.p, r.n + t.n, r.ev + t.ev, t.end)
  }

  /** Reading a + b is reading a, then, if the parser is still going, reading b. */
  lemma {:induction false} RunAppend(cfg: Settings, p: Parser, a: string, b: string)
    ensures Run(cfg, p, a + b) ==
      var r := Run(cfg, p, a); if r.end.Live? then Then(r, Run(cfg, r.p, b)) else r
    decreases |a|
  {
    hide Step;
    if a == [] {
      assert a + b == b;
      assert [] + Run(cfg, p, b).ev == Run(cfg, p, b).ev;
    } else {
      assert (a + b)[0] == a[0] && (a + b)[1..] == a[1..] + b;
      var o := Step(cfg, p, a[0]);
      RunCons(cfg, p, a);
      RunCons(cfg, p, a + b);
      hide Run;
      if o.status.Go? {
        RunAppend(cfg, o.p, a[1..], b);
        var r := Run(cfg, o.p, a[1..]);
        var t := Run(cfg, r.p, b);
        assert o.ev + (r.ev + t.ev) == (o.ev + r.ev) + t.ev;
      }
    }
  }

  lemma RunCons(cfg: Settings, p: Parser, data: string)
    requires data != []
    ensures var o := Step(cfg, p, data[0]);
      Run(cfg, p, data) ==
        if o.status.Go? then var r := Run(cfg, o.p, data[1..]); r.(n := r.n + 1, ev := o.ev + r.ev)
        else RunResult(o.p, if o.status.StopAfter? then 1 else 0, o.ev, EndOf(o))
  {
    hide Step;
  }

  lemma RunOne(cfg: Settings, p: Parser, ch: char)
    ensures Run(cfg, p, [ch]) ==
      var o := Step(cfg, p, ch); RunResult(o.p, if o.status.Go? || o.status.StopAfter? then 1 else 0, o.ev, EndOf(o))
  {
    hide Step;
    var o := Step(cfg, p, ch);
    assert [ch][1..] == [];
    assert o.ev + [] == o.ev;
  }

  /** The first byte decides a call when it stops there. */
  lemma RunStops(cfg: Settings, p: Parser, data: string, i: nat)
    requires i < |data|
    requires Run(cfg, p, data[..i]).end.Live?
    requires !Step(cfg, Run(cfg, p, data[..i]).p, data[i]).status.Go?
    ensures Run(cfg, p, data) ==
      var r := Run(cfg, p, data[..i]);
      Then(r, Run(cfg, r.p, [data[i]]))
  {
    hide Step;
    var r := Run(cfg, p, data[..i]);
    RunAppend(cfg, p, data[..i], data[i..]);
    assert data == data[..i] + data[i..];
    RunOne(cfg, r.p, data[i]);
  }

  // ---- bodies of known length, many bytes at once ----

  predicate InBody(s: State) { s.BodyIdentity? || s.BodyIdentityEof? || s == Chunk(InData) }

  /** `k` bytes further into a body. */
  function Skip(p: Parser, k: nat): Parser
    requires p.state.BodyIdentityEof? || k <= p.contentLength
  {
    if p.state.BodyIdentityEof? then p else p.(contentLength := p.contentLength - k)
  }

  lemma BodyByte(cfg: Settings, p: Parser, c: char)
    requires p.errno.Ok? && Inv(p) && InBody(p.state) && (p.state.BodyIdentityEof? || p.contentLength > 1)
    ensures Step(cfg, p, c) == Out(Skip(p, 1), [Data(Body, [c])], Go) && Inv(Skip(p, 1))
  {
    hide FieldMatchOk, ValueMatchOk, StepStart, StepStatusLine, StepReqVersion, StepUrl, StepHeader, StepHeadersAlmostDone, Finish;
  }

  /** A stretch of body that does not reach its end is reported byte by byte and changes only the
      remaining length. */
  lemma {:induction false} RunBody(cfg: Settings, p: Parser, data: string)
    requires p.errno.Ok? && Inv(p) && InBody(p.state)
    requires p.state.BodyIdentityEof? || |data| < p.contentLength
    ensures Run(cfg, p, data) == RunResult(Skip(p, |data|), |data|, ByteEvents(Body, data), Live) && Inv(Skip(p, |data|))
    decreases |data|
  {
    hide Step, Inv;
    if data != [] {
      var q := Skip(p, 1);
      BodyByte(cfg, p, data[0]);
      RunBody(cfg, q, data[1..]);
      assert ByteEvents(Body, data) == [Data(Body, [data[0]])] + ByteEvents(Body, data[1..]);
    }
  }

  // ---- marks ----

  /** The four mark pointers as offsets, -1 for NULL. */
  datatype Marks = Marks(url: int, field: int, value: int, body: int)

  const NO_MARKS := Marks(-1, -1, -1, -1)

  function Mark(m: Marks, k: Kind): int {
    match k case Url => m.url case Field => m.field case Value => m.value case Body => m.body
  }

  function SetMark(m: Marks, k: Kind, at: int): (r: Marks)
    ensures Mark(r, k) == at
    ensures forall j: Kind :: j != k ==> Mark(r, j) == Mark(m, j)
  {
    match k
    case Url => m.(url := at) case Field => m.(field := at) case Value => m.(value := at) case Body => m.(body := at)
  }

  /** MARK: set unless it is set already. */
  function MarkAt(m: Marks, k: Kind, at: nat): Marks { if Mark(m, k) >= 0 then m else SetMark(m, k, at) }

  /** Marks as rebuilt from the saved state at the start of a call. */
  function Rebuilt(s: State): Marks {
    if Collecting(s).Some? then SetMark(NO_MARKS, Collecting(s).value, 0) else NO_MARKS
  }

  /** The kind a mark is set for, at offset i of a call over len bytes. */
  ghost predicate MarksOk(m: Marks, s: State, i: nat, len: nat) {
    && (forall k: Kind :: -1 <= Mark(m, k) <= i && (Mark(m, k) == i ==> i == 0 && !k.Body?))
    && (forall k: Kind :: !k.Body? ==> (Mark(m, k) >= 0 <==> Collecting(s) == Some(k)))
    && (m.body >= 0 ==> s == Chunk(DataAlmostDone) || (InBody(s) && i == len))
  }

  /** The slice a mark stands for, if it covers any byte yet. */
  ghost function Held(m: Marks, k: Kind, data: string, i: nat): seq<Event>
    requires Mark(m, k) <= i <= |data|
  {
    if 0 <= Mark(m, k) < i then [Data(k, data[Mark(m, k)..i])] else []
  }

  ghost function Pending(m: Marks, data: string, i: nat): seq<Event>
    requires i <= |data| && forall k: Kind :: Mark(m, k) <= i
  {
    Held(m, Field, data, i) + Held(m, Value, data, i) + Held(m, Url, data, i) + Held(m, Body, data, i)
  }

  /** At most one mark is set, so at most one slice is pending. */
  lemma OneMark(m: Marks, s: State, i: nat, len: nat, j: Kind, k: Kind)
    requires MarksOk(m, s, i, len) && Mark(m, j) >= 0 && Mark(m, k) >= 0
    ensures j == k
  {
  }

  lemma PendingOne(m: Marks, s: State, data: string, i: nat, k: Kind)
    requires i <= |data| && MarksOk(m, s, i, |data|) && Mark(m, k) >= 0
    ensures Pending(m, data, i) == Held(m, k, data, i)
  {
    forall j: Kind | j != k ensures Mark(m, j) < 0 {
      if Mark(m, j) >= 0 { OneMark(m, s, i, |data|, j, k); }
    }
  }

  lemma PendingNone(m: Marks, data: string, i: nat)
    requires i <= |data| && forall k: Kind :: Mark(m, k) < 0
    ensures Pending(m, data, i) == []
  {
  }

  // ---- the callbacks of one byte ----

  ghost predicate OnlyNotices(ev: seq<Event>) { forall e :: e in ev ==> e.Notice? }

  /** Inside a header line. */
  predicate InLine(s: State) { s.Header? && !s.header.FieldStart? }

  /** States in which the next byte may start a header line. */
  predicate AtLine(s: State) { s == Header(FieldStart) || s == Header(ValueLws) }

  /** How the events of a byte relate to the data being collected before and after it: a run goes
      on silently, ends with its data callback, or starts; notifications come only in between. */
  ghost predicate Shape(s: State, o: Out) {
    match o.status
    case Go =>
      && o.p.state != Chunk(DataAlmostDone)
      && (s == Chunk(DataAlmostDone) ==> o.ev == [])
      && (InLine(o.p.state) ==> InLine(s) || (AtLine(s) && o.p.state == Header(InField)))
      && if Collecting(s).Some? then
           if Collecting(o.p.state).Some? then o.ev == [] && Collecting(o.p.state) == Collecting(s)
           else o.ev == [Data(Collecting(s).value, [])]
         else
           || o.ev == []
           || (Collecting(o.p.state).None? && (OnlyNotices(o.ev) || (s == Header(ValueStart) && o.ev == [Data(Value, [])])))
    case StopAfter => Collecting(s).None? && OnlyNotices(o.ev) && s != Chunk(DataAlmostDone)
    case StopAt =>
      if o.p.errno.CbHeadersComplete? then Collecting(s).None? && OnlyNotices(o.ev) && s != Chunk(DataAlmostDone)
      else o.ev == []
    case Abort => false
  }

  lemma StartShape(cfg: Settings, p: Parser, ch: char)
    requires p.state in {Dead, StartReqOrRes, ResOrRespH, StartRes, StartReq, ReqMethod}
    ensures Shape(p.state, StepStart(cfg, p, ch))
  {
  }

  lemma LineShape(cfg: Settings, p: Parser, ch: char)
    ensures p.state.StatusLine? ==> Shape(p.state, StepStatusLine(cfg, p, p.state.status, ch))
    ensures p.state.ReqVersion? ==> Shape(p.state, StepReqVersion(p, p.state.version, ch))
  {
  }

  lemma UrlShape(p: Parser, ch: char)
    requires p.state.ReqUrl?
    ensures Shape(p.state, StepUrl(p, p.state.url, ch))
  {
    hide UrlStep;
  }

  lemma HeadersAlmostDoneShape(cfg: Settings, p: Parser, s: State, ch: char)
    requires Collecting(s).None? && s != Chunk(DataAlmostDone)
    ensures Shape(s, StepHeadersAlmostDone(cfg, p, ch))
  {
    hide NeedsEof, ShouldKeepAlive;
  }

  lemma FieldStartShape(cfg: Settings, p: Parser, s: State, ch: char)
    requires AtLine(s)
    ensures Shape(s, StepFieldStart(cfg, p, ch))
  {
    hide StepHeadersAlmostDone;
    HeadersAlmostDoneShape(cfg, p.(state := HeadersAlmostDone), s, ch);
  }

  lemma FieldShape(p: Parser, ch: char)
    requires p.state == Header(InField) && FieldMatchOk(p.hstate, p.index) && p.index <= 17
    ensures Shape(p.state, StepField(p, ch))
  {
    hide FieldMatch;
    FieldMatchKeeps(p.hstate, p.index, ch);
  }

  lemma ValueStartShape(p: Parser, ch: char)
    requires p.state == Header(ValueStart)
    ensures Shape(p.state, StepValueStart(p, ch))
  {
  }

  lemma ValueShape(p: Parser, ch: char)
    requires p.state == Header(InValue) && ValueMatchOk(p.hstate, p.index, p.contentLength) && p.index <= 17
    ensures Shape(p.state, StepValue(p, ch))
  {
    hide ValueMatch, LengthMatch, AddDigit;
    if !p.hstate.ContentLength? {
      ValueMatchKeeps(p.hstate, p.index, p.contentLength, ch);
    }
  }

  lemma HeaderShape(cfg: Settings, p: Parser, ch: char)
    requires p.state.Header? && InvCounted(p)
    ensures Shape(p.state, StepHeader(cfg, p, p.state.header, ch))
  {
    hide StepFieldStart, StepField, StepValueStart, StepValue;
    match p.state.header
    case InField => FieldShape(p, ch);
    case ValueStart => ValueStartShape(p, ch);
    case InValue => ValueShape(p, ch);
    case AlmostDone =>
    case FieldStart => FieldStartShape(cfg, p, p.state, ch);
    case ValueLws => FieldStartShape(cfg, p.(state := Header(FieldStart)), p.state, ch);
  }

  lemma ChunkShape(p: Parser, ch: char)
    requires p.state.Chunk? && p.state != Chunk(InData) && InvCounted(p)
    ensures Shape(p.state, StepChunk(p, p.state.chunk, ch))
  {
    hide AddDigit;
  }

  lemma DispatchShape(cfg: Settings, p: Parser, ch: char)
    requires InvCounted(p) && !InBody(p.state)
    ensures Shape(p.state, Dispatch(cfg, p, ch))
  {
    hide Shape, StepStart, StepStatusLine, StepReqVersion, StepUrl, StepHeader, StepHeadersAlmostDone, StepChunk;
    match p.state
    case StatusLine(at) => LineShape(cfg, p, ch);
    case ReqUrl(at) => UrlShape(p, ch);
    case ReqVersion(at) => LineShape(cfg, p, ch);
    case Header(at) => HeaderShape(cfg, p, ch);
    case HeadersAlmostDone => HeadersAlmostDoneShape(cfg, p, p.state, ch);
    case Chunk(at) => ChunkShape(p, ch);
    case _ => StartShape(cfg, p, ch);
  }

  // ---- a call in progress ----

  /** Where body bytes are held back. */
  predicate HoldsBody(s: State) { InBody(s) || s == Chunk(DataAlmostDone) }

  /** How many bytes are held back, to be handed over as one slice, after a byte that took the parser
      from state s to state t; h were held before it. */
  function HeldStep(h: nat, s: State, t: State): nat {
    if Collecting(t).Some? then if Collecting(s) == Collecting(t) then h + 1 else 1
    else if InBody(s) && HoldsBody(t) then h + 1
    else 0
  }

  /** The same over a stretch of input that does not stop the call. */
  function HeldFrom(cfg: Settings, p: Parser, data: string, h: nat): nat
    decreases |data|
  {
    if data == [] then h
    else var o := Step(cfg, p, data[0]); HeldFrom(cfg, o.p, data[1..], HeldStep(h, p.state, o.p.state))
  }

  /** The report without the bytes still held, which are reported one by one. */
  function Settled(ev: seq<Event>, h: nat): seq<Event> { if h <= |ev| then ev[..|ev| - h] else [] }

  /** After i bytes of a call: the parser is where the byte-at-a-time reading is, the marks say
      what is being collected, and the callbacks made plus the slice still held tell the same. */
  ghost predicate Follows(cfg: Settings, s0: Parser, data: string, i: nat, s: Parser, m: Marks, calls: seq<Event>) {
    && i <= |data|
    && s.errno.Ok? && Inv(s)
    && MarksOk(m, s.state, i, |data|)
    && var r := Run(cfg, s0, data[..i]);
       r.end.Live? && r.p == s && r.n == i && Same(calls + Pending(m, data, i), r.ev)
  }

  /** And the callbacks made tell exactly what is settled; no body bytes are held where more follow. */
  ghost predicate Tells(cfg: Settings, s0: Parser, data: string, i: nat, s: State, calls: seq<Event>)
    requires i <= |data|
  {
    var h := HeldFrom(cfg, s0, data[..i], 0);
    Same(calls, Settled(Run(cfg, s0, data[..i]).ev, h)) && (InBody(s) && i < |data| ==> h == 0)
  }

  ghost predicate Tracks(cfg: Settings, s0: Parser, data: string, i: nat, s: Parser, m: Marks, calls: seq<Event>) {
    Follows(cfg, s0, data, i, s, m, calls) && Tells(cfg, s0, data, i, s.state, calls)
  }

  lemma {:induction false} HeldAppend(cfg: Settings, p: Parser, a: string, b: string, h: nat)
    requires Run(cfg, p, a).end.Live?
    ensures HeldFrom(cfg, p, a + b, h) == HeldFrom(cfg, Run(cfg, p, a).p, b, HeldFrom(cfg, p, a, h))
    decreases |a|
  {
    hide Step;
    if a == [] {
      assert a + b == b;
    } else {
      var o := Step(cfg, p, a[0]);
      assert (a + b)[0] == a[0] && (a + b)[1..] == a[1..] + b;
      HeldAppend(cfg, o.p, a[1..], b, HeldStep(h, p.state, o.p.state));
    }
  }

  lemma HeldOne(cfg: Settings, p: Parser, c: char, h: nat)
    ensures HeldFrom(cfg, p, [c], h) == HeldStep(h, p.state, Step(cfg, p, c).p.state)
  {
    hide Step;
    assert [c][1..] == [];
  }

  lemma SettledMore(ev: seq<Event>, more: seq<Event>, h: nat)
    ensures Settled(ev + more, h + |more|) == Settled(ev, h)
    ensures Settled(ev, 0) == ev
  {
  }

  /** The marks and callbacks after a byte that did not stop the call. */
  function Noted(o: Out, m: Marks, calls: seq<Event>, data: string, i: nat): (r: (Marks, seq<Event>))
    requires i < |data|
    requires forall k: Kind :: Mark(m, k) <= i
  {
    var flushed :=
      if o.ev != [] && o.ev[0].Data? then
        var k := o.ev[0].kind;
        (SetMark(m, k, -1), calls + [Data(k, data[Mark(MarkAt(m, k, i), k)..i])])
      else if Mark(m, Body) >= 0 then (SetMark(m, Body, -1), calls + [Data(Body, data[Mark(m, Body)..i])] + o.ev)
      else (m, calls + o.ev);
    if Collecting(o.p.state).Some? then (MarkAt(flushed.0, Collecting(o.p.state).value, i), flushed.1) else flushed
  }

  lemma SameExtend(t: seq<Event>, u: seq<Event>, e: seq<Event>)
    requires Same(t, u)
    ensures Same(t + e, u + e)
  {
    SameAppend(t, u, e, e);
  }

  lemma NotedNothing(o: Out, s: State, m: Marks, calls: seq<Event>, data: string, i: nat, k: Kind)
    requires i < |data| && MarksOk(m, s, i, |data|)
    requires Collecting(s) == Some(k) && Collecting(o.p.state) == Some(k) && o.ev == []
    ensures Noted(o, m, calls, data, i) == (m, calls) && 0 <= Mark(m, k) <= i
    ensures MarksOk(m, o.p.state, i + 1, |data|)
  {
    assert calls + [] == calls;
  }

  /** A run of data goes on. */
  lemma NotedGoesOn(o: Out, s: State, m: Marks, calls: seq<Event>, data: string, i: nat, ev: seq<Event>, k: Kind)
    requires i < |data| && MarksOk(m, s, i, |data|)
    requires Collecting(s) == Some(k) && Collecting(o.p.state) == Some(k) && o.ev == []
    requires Same(calls + Pending(m, data, i), ev)
    ensures var (m', calls') := Noted(o, m, calls, data, i);
      MarksOk(m', o.p.state, i + 1, |data|) && Same(calls' + Pending(m', data, i + 1), ev + [Data(k, [data[i]])])
  {
    hide Merged, Noted, MarksOk, Pending;
    NotedNothing(o, s, m, calls, data, i, k);
    var at, one := Mark(m, k), [Data(k, [data[i]])];
    PendingOne(m, s, data, i, k);
    PendingOne(m, o.p.state, data, i + 1, k);
    assert Pending(m, data, i + 1) == [Data(k, data[at..i + 1])];
    SameExtend(calls + Pending(m, data, i), ev, one);
    assert data[at..i] + [data[i]] == data[at..i + 1];
    if at < i {
      SameJoin(calls, k, data[at..i], [data[i]]);
    } else {
      assert calls + [] == calls && data[at..i + 1] == [data[i]];
    }
  }

  /** A run of data ends with its callback. */
  lemma NotedEnds(o: Out, s: State, m: Marks, calls: seq<Event>, data: string, i: nat, ev: seq<Event>, k: Kind)
    requires i < |data| && MarksOk(m, s, i, |data|)
    requires Collecting(s) == Some(k) || (Collecting(s).None? && s == Header(ValueStart) && k.Value?)
    requires Collecting(o.p.state).None? && o.ev == [Data(k, [])] && o.p.state != Chunk(DataAlmostDone)
    requires Same(calls + Pending(m, data, i), ev)
    ensures var (m', calls') := Noted(o, m, calls, data, i);
      MarksOk(m', o.p.state, i + 1, |data|) && Same(calls' + Pending(m', data, i + 1), ev + [Data(k, [])])
  {
    hide Merged;
    var (m', calls') := Noted(o, m, calls, data, i);
    var at := Mark(MarkAt(m, k, i), k);
    forall j: Kind ensures Mark(m', j) < 0 {
      if Mark(m, j) >= 0 && Mark(m, k) >= 0 { OneMark(m, s, i, |data|, j, k); }
    }
    PendingNone(m', data, i + 1);
    assert calls' + [] == calls';
    SameExtend(calls + Pending(m, data, i), ev, [Data(k, [])]);
    if Mark(m, k) >= 0 {
      PendingOne(m, s, data, i, k);
    } else {
      PendingNone(m, data, i);
    }
    if at < i {
      SameJoin(calls, k, data[at..i], []);
      assert data[at..i] + [] == data[at..i];
    } else {
      assert data[at..i] == [];
      assert Pending(m, data, i) == [];
      assert calls + [] == calls;
    }
  }

  /** Without data to flush but a chunk's body waiting for its line end, that body is handed over. */
  lemma NotedFlushes(o: Out, s: State, m: Marks, calls: seq<Event>, data: string, i: nat)
    requires i < |data| && MarksOk(m, s, i, |data|) && Collecting(s).None? && !InBody(s)
    requires OnlyNotices(o.ev) && o.p.state != Chunk(DataAlmostDone)
    requires Collecting(o.p.state).None? || o.ev == []
    ensures var (m', calls') := Noted(o, m, calls, data, i);
      && calls' == calls + Pending(m, data, i) + o.ev
      && MarksOk(m', o.p.state, i + 1, |data|)
      && (Collecting(o.p.state).Some? ==> Mark(m', Collecting(o.p.state).value) == i)
      && (Collecting(o.p.state).None? ==> forall k: Kind :: Mark(m', k) < 0)
  {
    if Mark(m, Body) >= 0 {
      PendingOne(m, s, data, i, Body);
    } else {
      PendingNone(m, data, i);
      assert calls + [] == calls;
    }
    assert o.ev != [] ==> o.ev[0] in o.ev;
    hide Pending;
  }

  /** Nothing was being collected before the byte, except a chunk's body waiting for its line end. */
  lemma NotedStarts(o: Out, s: State, m: Marks, calls: seq<Event>, data: string, i: nat, ev: seq<Event>)
    requires i < |data| && MarksOk(m, s, i, |data|) && Collecting(s).None? && !InBody(s)
    requires OnlyNotices(o.ev) && o.p.state != Chunk(DataAlmostDone)
    requires Collecting(o.p.state).None? || o.ev == []
    requires Same(calls + Pending(m, data, i), ev)
    ensures var (m', calls') := Noted(o, m, calls, data, i);
      && MarksOk(m', o.p.state, i + 1, |data|)
      && Same(calls' + Pending(m', data, i + 1),
              ev + o.ev + if Collecting(o.p.state).Some? then [Data(Collecting(o.p.state).value, [data[i]])] else [])
  {
    hide Merged, Noted, Pending, Same, OnlyNotices;
    NotedFlushes(o, s, m, calls, data, i);
    var (m', calls') := Noted(o, m, calls, data, i);
    SameExtend(calls + Pending(m, data, i), ev, o.ev);
    if Collecting(o.p.state).Some? {
      var k := Collecting(o.p.state).value;
      PendingOne(m', o.p.state, data, i + 1, k);
      assert data[i..i + 1] == [data[i]];
      SameExtend(calls', ev + o.ev, [Data(k, [data[i]])]);
    } else {
      PendingNone(m', data, i + 1);
      assert calls' + [] == calls';
      assert ev + o.ev + [] == ev + o.ev;
    }
  }

  lemma NotedOk(o: Out, s: State, m: Marks, calls: seq<Event>, data: string, i: nat, ev: seq<Event>)
    requires i < |data| && MarksOk(m, s, i, |data|) && !InBody(s)
    requires o.status.Go? && Shape(s, o)
    requires Same(calls + Pending(m, data, i), ev)
    ensures var (m', calls') := Noted(o, m, calls, data, i);
      && MarksOk(m', o.p.state, i + 1, |data|)
      && Same(calls' + Pending(m', data, i + 1), ev + Observed(o, data[i]).ev)
  {
    hide Noted, MarksOk, Same;
    if Collecting(s).Some? {
      var k := Collecting(s).value;
      if Collecting(o.p.state).Some? {
        NotedGoesOn(o, s, m, calls, data, i, ev, k);
        assert [] + [Data(k, [data[i]])] == [Data(k, [data[i]])];
      } else {
        NotedEnds(o, s, m, calls, data, i, ev, k);
      }
    } else if o.ev == [Data(Value, [])] {
      assert o.ev[0] in o.ev;
      NotedEnds(o, s, m, calls, data, i, ev, Value);
    } else {
      NotedStarts(o, s, m, calls, data, i, ev);
      var tail := if Collecting(o.p.state).Some? then [Data(Collecting(o.p.state).value, [data[i]])] else [];
      assert ev + o.ev + tail == ev + (o.ev + tail);
      assert o.ev + [] == o.ev;
    }
  }

  // ---- whole stretches of body ----

  /** What the last byte of a body of known length does. */
  function BodyOver(cfg: Settings, p: Parser): Out {
    if p.state.BodyIdentity? then Finish(cfg, p.(contentLength := 0, state := MessageDone))
    else Cont(p.(contentLength := 0, state := Chunk(DataAlmostDone)))
  }

  lemma LastBodyByte(cfg: Settings, p: Parser, ch: char)
    requires p.errno.Ok? && Inv(p) && (p.state.BodyIdentity? || p.state == Chunk(InData)) && p.contentLength == 1
    ensures var o := BodyOver(cfg, p);
      Step(cfg, p, ch) == o.(ev := [Data(Body, [ch])] + o.ev) && !o.status.StopAt? && !o.status.Abort?
  {
    hide FieldMatchOk, ValueMatchOk, NeedsEof, ShouldKeepAlive;
  }

  lemma BodyNotEmpty(p: Parser)
    requires Inv(p) && (p.state.BodyIdentity? || p.state == Chunk(InData))
    ensures p.contentLength > 0
  {
  }

  /** A body of known length read to its end. */
  lemma RunBodyEnd(cfg: Settings, p: Parser, data: string)
    requires p.errno.Ok? && Inv(p) && (p.state.BodyIdentity? || p.state == Chunk(InData))
    requires |data| == p.contentLength
    ensures var o := BodyOver(cfg, p);
      Run(cfg, p, data) == RunResult(o.p, |data|, ByteEvents(Body, data) + o.ev, EndOf(o))
  {
    hide Step, Run, Inv, Finish;
    BodyNotEmpty(p);
    var n := |data| - 1;
    var q := Skip(p, n);
    var o := BodyOver(cfg, p);
    assert data == data[..n] + [data[n]];
    RunBody(cfg, p, data[..n]);
    RunAppend(cfg, p, data[..n], [data[n]]);
    RunOne(cfg, q, data[n]);
    LastBodyByte(cfg, q, data[n]);
    assert BodyOver(cfg, q) == o;
    assert ByteEvents(Body, data) == ByteEvents(Body, data[..n]) + [Data(Body, [data[n]])];
    assert ByteEvents(Body, data[..n]) + ([Data(Body, [data[n]])] + o.ev) == ByteEvents(Body, data) + o.ev;
  }

  /** A stretch of body appended to what has been read and told so far. */
  lemma BodyTold(calls: seq<Event>, ev: seq<Event>, body: string, after: seq<Event>)
    requires Same(calls, ev) && body != []
    ensures Same(calls + [Data(Body, body)] + after, ev + (ByteEvents(Body, body) + after))
  {
    hide Merged;
    SameBytes(Body, body);
    SameAppend(calls, ev, [Data(Body, body)], ByteEvents(Body, body));
    SameExtend(calls + [Data(Body, body)], ev + ByteEvents(Body, body), after);
    assert ev + ByteEvents(Body, body) + after == ev + (ByteEvents(Body, body) + after);
  }

  /** The end of input: completes a message that runs to the end of the stream, is fine between
      messages, and is an error anywhere else (reported by returning 1). */
  function AtEof(cfg: Settings, p: Parser): RunResult {
    match p.state
    case BodyIdentityEof =>
      var o := TellComplete(cfg, p);
      RunResult(o.p, 0, o.ev, EndOf(o))
    case Dead => RunResult(p, 0, [], Live)
    case StartReqOrRes => RunResult(p, 0, [], Live)
    case StartRes => RunResult(p, 0, [], Live)
    case StartReq => RunResult(p, 0, [], Live)
    case _ => RunResult(p.(errno := InvalidEofState), 1, [], Failed)
  }

  /** What a call tells the application about a non-empty input: everything that reading it byte by
      byte reports, but on a parse error not the bytes held back at the failing one. */
  function Spoken(cfg: Settings, p: Parser, data: string): RunResult {
    var r := Run(cfg, p, data);
    if r.end.Failed? && r.n <= |data| then r.(ev := Settled(r.ev, HeldFrom(cfg, p, data[..r.n], 0))) else r
  }

  /** One call: nothing after an error, the end of input for no bytes, the bytes otherwise. */
  function Call(cfg: Settings, p: Parser, data: string): RunResult {
    if !p.errno.Ok? then RunResult(p, 0, [], Stopped)
    else if data == [] then AtEof(cfg, p)
    else Spoken(cfg, p, data)
  }

  /** The callbacks at the end of a call, for whatever is marked. */
  method HandOver(marks: Marks, data: string, calls: seq<Event>) returns (r: seq<Event>)
    requires data != [] && forall k: Kind :: Mark(marks, k) < |data|
    ensures r == calls + Pending(marks, data, |data|)
  {
    r := calls;
    if Mark(marks, Field) >= 0 { r := r + [Data(Field, data[Mark(marks, Field)..])]; }
    if Mark(marks, Value) >= 0 { r := r + [Data(Value, data[Mark(marks, Value)..])]; }
    if Mark(marks, Url) >= 0 { r := r + [Data(Url, data[Mark(marks, Url)..])]; }
    if Mark(marks, Body) >= 0 { r := r + [Data(Body, data[Mark(marks, Body)..])]; }
    forall k: Kind | Mark(marks, k) >= 0 ensures data[Mark(marks, k)..|data|] == data[Mark(marks, k)..] {}
  }

  class HttpParser {
    var s: Parser

    constructor (t: ParserType)
      ensures s == Init(t) && Valid(s)
    {
      s := Init(t);
    }

    /** The marks and callbacks of a byte after which the call goes on. */
    static method NoteByte(o: Out, marks: Marks, calls: seq<Event>, data: string, i: nat)
      returns (marks': Marks, calls': seq<Event>)
      requires i < |data| && forall k: Kind :: Mark(marks, k) <= i
      ensures (marks', calls') == Noted(o, marks, calls, data, i)
    {
      marks', calls' := marks, calls;
      assert Mark(marks, Body) == marks.body;
      if o.ev != [] && o.ev[0].Data? {
        var k := o.ev[0].kind;
        marks' := MarkAt(marks', k, i);
        calls' := calls' + [Data(k, data[Mark(marks', k)..i])];
        marks' := SetMark(marks', k, -1);
      } else {
        if marks'.body >= 0 {
          calls' := calls' + [Data(Body, data[marks'.body..i])];
          marks' := marks'.(body := -1);
        }
        calls' := calls' + o.ev;
      }
      if Collecting(o.p.state).Some? {
        marks' := MarkAt(marks', Collecting(o.p.state).value, i);
      }
    }

    /** Any byte outside a body. */
    method TakeByte(cfg: Settings, data: string, i: nat, marks: Marks, calls: seq<Event>, ghost s0: Parser)
      returns (marks': Marks, calls': seq<Event>, stop: bool, n: nat)
      requires i < |data| && !InBody(s.state)
      requires Tracks(cfg, s0, data, i, s, marks, calls)
      modifies this
      ensures !stop ==> Tracks(cfg, s0, data, i + 1, s, marks', calls')
      ensures stop ==> var r := Spoken(cfg, s0, data);
        s == r.p && n == r.n && !r.end.Live? && Same(calls', r.ev)
    {
      hide Dispatch, Merged, Inv, Run, Pending, Spoken, Noted;
      assert forall k: Kind :: Mark(marks, k) <= i;
      hide Tracks, MarksOk;
      var ch := data[i];
      ghost var was := s;
      marks', calls', stop, n := marks, calls, true, i;
      if ParsingHeader(s.state) {
        s := s.(nread := s.nread + 1);
        if s.nread > MAX_HEADER_SIZE {
          s := s.(errno := HeaderOverflow);
          ByteFails(cfg, s0, data, i, was, marks, calls);
          return;
        }
      }
      var o := Dispatch(cfg, s, ch);
      s := o.p;
      if o.status.StopAt? && !o.p.errno.CbHeadersComplete? {
        ByteFails(cfg, s0, data, i, was, marks, calls);
      } else if !o.status.Go? {
        calls' := calls + o.ev;
        n := if o.status.StopAfter? then i + 1 else i;
        ByteStops(cfg, s0, data, i, was, marks, calls);
      } else {
        stop := false;
        marks', calls' := NoteByte(o, marks, calls, data, i);
        ByteGoes(cfg, s0, data, i, was, marks, calls);
      }
    }

    /** A stretch of body: as many bytes as the body and the buffer allow. */
    method TakeBody(cfg: Settings, data: string, i: nat, marks: Marks, calls: seq<Event>, ghost s0: Parser)
      returns (j: nat, marks': Marks, calls': seq<Event>, stop: bool)
      requires i < |data| && InBody(s.state)
      requires Tracks(cfg, s0, data, i, s, marks, calls)
      modifies this
      ensures i < j <= |data|
      ensures !stop ==> Tracks(cfg, s0, data, j, s, marks', calls')
      ensures stop ==> var r := Spoken(cfg, s0, data);
        s == r.p && j == r.n && !r.end.Live? && Same(calls', r.ev)
    {
      hide Finish, Merged, StateInv, Run, Pending, Spoken, HeldFrom;
      ghost var was := s;
      var left := |data| - i;
      var toRead := if s.state.BodyIdentityEof? || left < s.contentLength then left else s.contentLength;
      marks', calls', stop := MarkAt(marks, Body, i), calls, false;
      s := Skip(s, toRead);
      j := i + toRead;
      if !s.state.BodyIdentityEof? && s.contentLength == 0 {
        if s.state.BodyIdentity? {
          s := s.(state := MessageDone);
          calls' := calls' + [Data(Body, data[marks'.body..j])];
          marks' := marks'.(body := -1);
          var o := Finish(cfg, s);
          s := o.p;
          calls' := calls' + o.ev;
          stop := !o.status.Go?;
        } else {
          s := s.(state := Chunk(DataAlmostDone));
        }
        BodyEnds(cfg, s0, data, i, was, marks, calls);
      } else {
        BodyGoesOn(cfg, s0, data, i, was, marks, calls);
      }
    }

    /** One call of the parser. */
    method Execute(cfg: Settings, data: string) returns (n: nat, calls: seq<Event>)
      requires Valid(s)
      modifies this
      ensures Valid(s)
      ensures var r := Call(cfg, old(s), data); s == r.p && n == r.n && Same(calls, r.ev)
      ensures data != [] ==> n <= |data|
    {
      hide Merged, Run, Inv, Tracks, Spoken, AtEof, Pending, Rebuilt;
      n, calls := 0, [];
      if !s.errno.Ok? {
        return;
      }
      if |data| == 0 {
        var r := AtEof(cfg, s);
        EofValid(cfg, s);
        s, n, calls := r.p, r.n, r.ev;
        return;
      }
      ghost var s0 := s;
      SpokenSound(cfg, s0, data);
      var marks := Rebuilt(s.state);
      TracksStart(cfg, s0, data);
      while n < |data|
        invariant n <= |data| && Tracks(cfg, s0, data, n, s, marks, calls)
        decreases |data| - n
      {
        var stop;
        if InBody(s.state) {
          n, marks, calls, stop := TakeBody(cfg, data, n, marks, calls, s0);
          if stop {
            return;
          }
        } else {
          var m;
          marks, calls, stop, m := TakeByte(cfg, data, n, marks, calls, s0);
          if stop {
            n := m;
            return;
          }
          n := n + 1;
        }
      }
      TracksEnd(cfg, s0, data, s, marks, calls);
      calls := HandOver(marks, data, calls);
    }
  }

  // ---- start, end and body stretches of a call ----

  lemma SpokenSound(cfg: Settings, p: Parser, data: string)
    requires p.errno.Ok? && Inv(p)
    ensures var r := Spoken(cfg, p, data); !r.end.Aborted? && Valid(r.p) && r.n <= |data|
  {
    hide Run, Inv, HeldFrom, Settled;
    RunSound(cfg, p, data);
  }

  lemma EofValid(cfg: Settings, p: Parser)
    requires Valid(p) && p.errno.Ok?
    ensures Valid(AtEof(cfg, p).p)
  {
    hide Inv;
  }

  lemma TracksStart(cfg: Settings, s0: Parser, data: string)
    requires s0.errno.Ok? && Inv(s0)
    ensures Tracks(cfg, s0, data, 0, s0, Rebuilt(s0.state), [])
  {
    hide Step, Inv;
    var m := Rebuilt(s0.state);
    assert data[..0] == [];
    assert Pending(m, data, 0) == [];
    assert [] + Pending(m, data, 0) == [];
  }

  /** The slices still held at the end of the buffer. */
  lemma TracksEnd(cfg: Settings, s0: Parser, data: string, s: Parser, m: Marks, calls: seq<Event>)
    requires data != [] && Tracks(cfg, s0, data, |data|, s, m, calls)
    ensures forall k: Kind :: Mark(m, k) < |data|
    ensures var r := Spoken(cfg, s0, data);
      r.p == s && r.n == |data| && r.end.Live? && Same(calls + Pending(m, data, |data|), r.ev)
  {
    hide Run, Inv, Same, Tells, HeldFrom, Pending;
    assert data[..|data|] == data;
  }

  lemma BodyFollowsOn(cfg: Settings, s0: Parser, data: string, i: nat, s: Parser, m: Marks, calls: seq<Event>)
    requires i < |data| && InBody(s.state) && Follows(cfg, s0, data, i, s, m, calls)
    requires s.state.BodyIdentityEof? || |data| - i < s.contentLength
    ensures Follows(cfg, s0, data, |data|, Skip(s, |data| - i), MarkAt(m, Body, i), calls)
  {
    hide Merged, Step, FieldMatchOk, ValueMatchOk;
    var before := Run(cfg, s0, data[..i]);
    var m' := MarkAt(m, Body, i);
    PendingNone(m, data, i);
    assert calls + [] == calls;
    RunBody(cfg, s, data[i..]);
    RunAppend(cfg, s0, data[..i], data[i..]);
    assert data[..|data|] == data[..i] + data[i..];
    BodyTold(calls, before.ev, data[i..], []);
    assert ByteEvents(Body, data[i..]) + [] == ByteEvents(Body, data[i..]);
    PendingOne(m', s.state, data, |data|, Body);
    assert data[i..|data|] == data[i..];
    assert calls + [Data(Body, data[i..])] + [] == calls + [Data(Body, data[i..])];
  }

  lemma BodyFollowsEnd(cfg: Settings, s0: Parser, data: string, i: nat, s: Parser, m: Marks, calls: seq<Event>)
    requires i < |data| && InBody(s.state) && Follows(cfg, s0, data, i, s, m, calls)
    requires !s.state.BodyIdentityEof? && s.contentLength <= |data| - i
    ensures var o := BodyOver(cfg, s); var j := i + s.contentLength; var m' := MarkAt(m, Body, i);
      var told := calls + [Data(Body, data[i..j])] + o.ev;
      && m'.body == i < j
      && (s.state == Chunk(InData) ==> Follows(cfg, s0, data, j, o.p, m', calls))
      && (s.state.BodyIdentity? && o.status.Go? ==> Follows(cfg, s0, data, j, o.p, m'.(body := -1), told))
      && (!o.status.Go? ==> var r := Spoken(cfg, s0, data); r.p == o.p && r.n == j && !r.end.Live? && Same(told, r.ev))
  {
    hide Merged, Step, Run, Inv, ShouldKeepAlive;
    var o := BodyOver(cfg, s);
    var j := i + s.contentLength;
    var m' := MarkAt(m, Body, i);
    var before := Run(cfg, s0, data[..i]);
    BodyRead(cfg, s0, data, i, s, m, calls);
    assert MarksOk(m', s.state, i + 1, i + 1);
    if s.state == Chunk(InData) {
      PendingOne(m', o.p.state, data, j, Body);
      assert calls + [Data(Body, data[i..j])] + [] == calls + Pending(m', data, j);
    } else if o.status.Go? {
      PendingNone(m'.(body := -1), data, j);
      assert calls + [Data(Body, data[i..j])] + o.ev + [] == calls + [Data(Body, data[i..j])] + o.ev;
    } else {
      RunAppend(cfg, s0, data[..j], data[j..]);
      assert data == data[..j] + data[j..];
    }
  }

  /** The reading at the end of a body stretch. */
  lemma BodyRead(cfg: Settings, s0: Parser, data: string, i: nat, s: Parser, m: Marks, calls: seq<Event>)
    requires i < |data| && InBody(s.state) && Follows(cfg, s0, data, i, s, m, calls)
    requires !s.state.BodyIdentityEof? && s.contentLength <= |data| - i
    ensures var o := BodyOver(cfg, s); var j := i + s.contentLength; var r := Run(cfg, s0, data[..j]);
      && i < j
      && r.p == o.p && r.n == j && r.end == EndOf(o)
      && Same(calls + [Data(Body, data[i..j])] + o.ev, r.ev)
      && (o.status.Go? ==> o.p.errno.Ok? && Inv(o.p))
      && (forall k: Kind :: Mark(m, k) < 0)
  {
    hide Merged, Step, Run, FieldMatchOk, ValueMatchOk, ShouldKeepAlive;
    var o := BodyOver(cfg, s);
    var j := i + s.contentLength;
    var part := data[i..j];
    var before := Run(cfg, s0, data[..i]);
    PendingNone(m, data, i);
    assert calls + [] == calls;
    RunBodyEnd(cfg, s, part);
    RunSound(cfg, s, part);
    RunAppend(cfg, s0, data[..i], part);
    assert data[..j] == data[..i] + part;
    BodyTold(calls, before.ev, part, o.ev);
  }

  // ---- what is held over body stretches ----

  lemma {:induction false} HeldBody(cfg: Settings, p: Parser, data: string, h: nat)
    requires p.errno.Ok? && Inv(p) && InBody(p.state)
    requires p.state.BodyIdentityEof? || |data| < p.contentLength
    ensures HeldFrom(cfg, p, data, h) == h + |data|
    decreases |data|
  {
    hide Step, Inv;
    if data != [] {
      BodyByte(cfg, p, data[0]);
      HeldBody(cfg, Skip(p, 1), data[1..], h + 1);
    }
  }

  lemma HeldBodyEnd(cfg: Settings, p: Parser, data: string, h: nat)
    requires p.errno.Ok? && Inv(p) && (p.state.BodyIdentity? || p.state == Chunk(InData))
    requires |data| == p.contentLength
    ensures HeldFrom(cfg, p, data, h) == if p.state.BodyIdentity? then 0 else h + |data|
  {
    hide Step, Run, Inv, ShouldKeepAlive;
    BodyNotEmpty(p);
    var n := |data| - 1;
    assert data == data[..n] + [data[n]];
    RunBody(cfg, p, data[..n]);
    HeldBody(cfg, p, data[..n], h);
    HeldAppend(cfg, p, data[..n], [data[n]], h);
    HeldOne(cfg, Skip(p, n), data[n], h + n);
    LastBodyByte(cfg, Skip(p, n), data[n]);
  }

  lemma BodyGoesOn(cfg: Settings, s0: Parser, data: string, i: nat, s: Parser, m: Marks, calls: seq<Event>)
    requires i < |data| && InBody(s.state) && Tracks(cfg, s0, data, i, s, m, calls)
    requires s.state.BodyIdentityEof? || |data| - i < s.contentLength
    ensures Tracks(cfg, s0, data, |data|, Skip(s, |data| - i), MarkAt(m, Body, i), calls)
  {
    hide Same, Run, Inv, HeldFrom, Pending, MarksOk, Settled, Tells;
    BodyFollowsOn(cfg, s0, data, i, s, m, calls);
    BodyTellsOn(cfg, s0, data, i, s, calls);
  }

  lemma BodyTellsOn(cfg: Settings, s0: Parser, data: string, i: nat, s: Parser, calls: seq<Event>)
    requires i < |data| && InBody(s.state) && (s.state.BodyIdentityEof? || |data| - i < s.contentLength)
    requires s.errno.Ok? && Inv(s) && Run(cfg, s0, data[..i]).end.Live? && Run(cfg, s0, data[..i]).p == s
    requires Tells(cfg, s0, data, i, s.state, calls)
    ensures Tells(cfg, s0, data, |data|, s.state, calls)
  {
    hide Same, Run, Inv, HeldFrom, Settled;
    var before, part := Run(cfg, s0, data[..i]), data[i..];
    RunBody(cfg, s, part);
    HeldBody(cfg, s, part, 0);
    RunAppend(cfg, s0, data[..i], part);
    HeldAppend(cfg, s0, data[..i], part, 0);
    assert data[..|data|] == data[..i] + part;
    SettledMore(before.ev, ByteEvents(Body, part), 0);
  }

  lemma BodyEnds(cfg: Settings, s0: Parser, data: string, i: nat, s: Parser, m: Marks, calls: seq<Event>)
    requires i < |data| && InBody(s.state) && Tracks(cfg, s0, data, i, s, m, calls)
    requires !s.state.BodyIdentityEof? && s.contentLength <= |data| - i
    ensures var o := BodyOver(cfg, s); var j := i + s.contentLength; var m' := MarkAt(m, Body, i);
      var told := calls + [Data(Body, data[i..j])] + o.ev;
      && m'.body == i < j
      && (s.state == Chunk(InData) ==> Tracks(cfg, s0, data, j, o.p, m', calls))
      && (s.state.BodyIdentity? && o.status.Go? ==> Tracks(cfg, s0, data, j, o.p, m'.(body := -1), told))
      && (!o.status.Go? ==> var r := Spoken(cfg, s0, data); r.p == o.p && r.n == j && !r.end.Live? && Same(told, r.ev))
  {
    hide Same, Run, Inv, HeldFrom, Pending, MarksOk, ShouldKeepAlive, Spoken, Settled;
    BodyFollowsEnd(cfg, s0, data, i, s, m, calls);
    BodyRead(cfg, s0, data, i, s, m, calls);
    BodyTellsEnd(cfg, s0, data, i, s, calls);
    SettledMore(Run(cfg, s0, data[..i + s.contentLength]).ev, [], 0);
  }

  lemma BodyTellsEnd(cfg: Settings, s0: Parser, data: string, i: nat, s: Parser, calls: seq<Event>)
    requires i < |data| && (s.state.BodyIdentity? || s.state == Chunk(InData)) && s.contentLength <= |data| - i
    requires s.errno.Ok? && Inv(s) && Run(cfg, s0, data[..i]).end.Live? && Run(cfg, s0, data[..i]).p == s
    requires Tells(cfg, s0, data, i, s.state, calls)
    ensures var j := i + s.contentLength;
      && (s.state.BodyIdentity? ==> HeldFrom(cfg, s0, data[..j], 0) == 0)
      && (s.state == Chunk(InData) ==> Tells(cfg, s0, data, j, Chunk(DataAlmostDone), calls))
  {
    hide Same, Run, Inv, HeldFrom, ShouldKeepAlive, Settled, Finish;
    var before, j := Run(cfg, s0, data[..i]), i + s.contentLength;
    var part := data[i..j];
    RunBodyEnd(cfg, s, part);
    HeldBodyEnd(cfg, s, part, 0);
    RunAppend(cfg, s0, data[..i], part);
    HeldAppend(cfg, s0, data[..i], part, 0);
    assert data[..j] == data[..i] + part;
    SettledMore(before.ev, ByteEvents(Body, part), 0);
    assert ByteEvents(Body, part) + [] == ByteEvents(Body, part);
  }

  // ---- one byte of a call in progress ----

  lemma ByteFails(cfg: Settings, s0: Parser, data: string, i: nat, s: Parser, m: Marks, calls: seq<Event>)
    requires i < |data| && !InBody(s.state) && Tracks(cfg, s0, data, i, s, m, calls)
    requires var o := Step(cfg, s, data[i]); o.status.StopAt? && !o.p.errno.CbHeadersComplete?
    ensures var r := Spoken(cfg, s0, data);
      r.p == Step(cfg, s, data[i]).p && r.n == i && !r.end.Live? && Same(calls, r.ev)
  {
    hide Merged, Dispatch, Inv;
    var o := Step(cfg, s, data[i]);
    var before := Run(cfg, s0, data[..i]);
    RunOne(cfg, s, data[i]);
    RunStops(cfg, s0, data, i);
    if !(ParsingHeader(s.state) && s.nread + 1 > MAX_HEADER_SIZE) {
      CountedOk(s);
      DispatchShape(cfg, Counted(s), data[i]);
    }
    assert before.ev + [] == before.ev;
  }

  lemma ByteStops(cfg: Settings, s0: Parser, data: string, i: nat, s: Parser, m: Marks, calls: seq<Event>)
    requires i < |data| && !InBody(s.state) && Tracks(cfg, s0, data, i, s, m, calls)
    requires ParsingHeader(s.state) ==> s.nread < MAX_HEADER_SIZE
    requires var o := Dispatch(cfg, Counted(s), data[i]);
      !o.status.Go? && !(o.status.StopAt? && !o.p.errno.CbHeadersComplete?)
    ensures var r := Spoken(cfg, s0, data); var o := Dispatch(cfg, Counted(s), data[i]);
      r.p == o.p && r.n == (if o.status.StopAfter? then i + 1 else i) && !r.end.Live? && Same(calls + o.ev, r.ev)
  {
    hide Merged, Dispatch, Inv;
    var o := Dispatch(cfg, Counted(s), data[i]);
    var before := Run(cfg, s0, data[..i]);
    RunOne(cfg, s, data[i]);
    CountedOk(s);
    DispatchShape(cfg, Counted(s), data[i]);
    RunStops(cfg, s0, data, i);
    PendingNone(m, data, i);
    assert calls + [] == calls;
    SameExtend(calls, before.ev, o.ev);
  }

  /** Once nothing is collected any more, no mark is left. */
  lemma NotedClears(o: Out, s: State, m: Marks, calls: seq<Event>, data: string, i: nat)
    requires i < |data| && MarksOk(m, s, i, |data|) && !InBody(s)
    requires o.status.Go? && Shape(s, o) && Collecting(o.p.state).None?
    ensures forall k: Kind :: Mark(Noted(o, m, calls, data, i).0, k) < 0
  {
    assert o.ev != [] ==> o.ev[0] in o.ev;
    forall k: Kind, j: Kind | Mark(m, k) >= 0 && Mark(m, j) >= 0 ensures k == j { OneMark(m, s, i, |data|, k, j); }
  }

  lemma ByteFollows(cfg: Settings, s0: Parser, data: string, i: nat, s: Parser, m: Marks, calls: seq<Event>)
    requires i < |data| && !InBody(s.state) && Follows(cfg, s0, data, i, s, m, calls)
    requires ParsingHeader(s.state) ==> s.nread < MAX_HEADER_SIZE
    requires Dispatch(cfg, Counted(s), data[i]).status.Go?
    ensures var o := Dispatch(cfg, Counted(s), data[i]); var (m', calls') := Noted(o, m, calls, data, i);
      && Shape(s.state, o) && Follows(cfg, s0, data, i + 1, o.p, m', calls')
      && Run(cfg, s0, data[..i + 1]).ev == Run(cfg, s0, data[..i]).ev + Observed(o, data[i]).ev
      && HeldFrom(cfg, s0, data[..i + 1], 0) == HeldStep(HeldFrom(cfg, s0, data[..i], 0), s.state, o.p.state)
  {
    hide Merged, Dispatch, Inv, Noted;
    var o := Dispatch(cfg, Counted(s), data[i]);
    var before := Run(cfg, s0, data[..i]);
    StepSound(cfg, s, data[i]);
    RunOne(cfg, s, data[i]);
    CountedOk(s);
    DispatchShape(cfg, Counted(s), data[i]);
    NotedOk(o, s.state, m, calls, data, i, before.ev);
    RunAppend(cfg, s0, data[..i], [data[i]]);
    HeldAppend(cfg, s0, data[..i], [data[i]], 0);
    HeldOne(cfg, s, data[i], HeldFrom(cfg, s0, data[..i], 0));
    assert data[..i + 1] == data[..i] + [data[i]];
  }

  lemma ShapeCollects(s: State, o: Out)
    requires Shape(s, o) && o.status.Go? && !InBody(s) && Collecting(o.p.state).Some?
    ensures o.ev == [] && OnlyNotices(o.ev) && o.p.state != Chunk(DataAlmostDone)
    ensures Collecting(s).Some? ==> Collecting(s) == Collecting(o.p.state)
  {
  }

  lemma MarksBehind(m: Marks, s: State, i: nat, n: nat)
    requires MarksOk(m, s, i, n)
    ensures forall k: Kind :: Mark(m, k) <= i
  {
  }

  lemma ByteTells(o: Out, s: State, m: Marks, calls: seq<Event>, data: string, i: nat, ev: seq<Event>, h: nat)
    requires i < |data| && MarksOk(m, s, i, |data|) && !InBody(s) && o.status.Go? && Shape(s, o)
    requires Same(calls + Pending(m, data, i), ev) && Same(calls, Settled(ev, h))
    ensures Same(Noted(o, m, calls, data, i).1, Settled(ev + Observed(o, data[i]).ev, HeldStep(h, s, o.p.state)))
  {
    hide Same, Shape, MarksOk, Noted, Pending, Settled, OnlyNotices;
    MarksBehind(m, s, i, |data|);
    if Collecting(o.p.state).Some? { ShapeCollects(s, o); }
    if Collecting(o.p.state).None? {
      var (m', calls') := Noted(o, m, calls, data, i);
      NotedOk(o, s, m, calls, data, i, ev);
      NotedClears(o, s, m, calls, data, i);
      PendingNone(m', data, i + 1);
      assert calls' + [] == calls';
      SettledMore(ev + o.ev, [], 0);
    } else {
      var k := Collecting(o.p.state).value;
      var byte := [Data(k, [data[i]])];
      assert [] + byte == byte && calls + Pending(m, data, i) + [] == calls + Pending(m, data, i);
      SettledMore(ev, byte, h);
      SettledMore(ev, byte, 0);
      if Collecting(s).Some? {
        NotedNothing(o, s, m, calls, data, i, k);
      } else {
        NotedFlushes(o, s, m, calls, data, i);
      }
    }
  }

  lemma ByteGoes(cfg: Settings, s0: Parser, data: string, i: nat, s: Parser, m: Marks, calls: seq<Event>)
    requires i < |data| && !InBody(s.state) && Tracks(cfg, s0, data, i, s, m, calls)
    requires ParsingHeader(s.state) ==> s.nread < MAX_HEADER_SIZE
    requires Dispatch(cfg, Counted(s), data[i]).status.Go?
    ensures var o := Dispatch(cfg, Counted(s), data[i]); var (m', calls') := Noted(o, m, calls, data, i);
      Tracks(cfg, s0, data, i + 1, o.p, m', calls')
  {
    var o := Dispatch(cfg, Counted(s), data[i]);
    hide Dispatch, Inv, Noted, Same, Run, HeldFrom, Shape, Pending, MarksOk, Observed, Settled;
    ByteFollows(cfg, s0, data, i, s, m, calls);
    ByteTells(o, s.state, m, calls, data, i, Run(cfg, s0, data[..i]).ev, HeldFrom(cfg, s0, data[..i], 0));
  }
}

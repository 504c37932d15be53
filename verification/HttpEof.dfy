/** What the end of input means: which inputs may end where they do. */
module HttpEof {
  import opened HttpTypes
  import opened HttpChars
  import opened UrlAutomaton
  import opened HttpStep
  import opened HttpInvariant
  import opened HttpExecute
  import opened HttpPieces
  import opened HttpBodies

  predicate IsLineEnd(c: char) { c == CR || c == LF }

  predicate Between(s: State) { s.Dead? || s.StartReq? || s.StartRes? || s.StartReqOrRes? }

  /** The report ends with the completion of a message. */
  predicate EndsMessage(ev: seq<Event>) {
    ev != [] && ev[|ev| - 1].Notice? && ev[|ev| - 1].note.MessageComplete?
  }

  /** Headers after which the body is everything up to the end of the stream. */
  predicate RunsToEnd(cfg: Settings, f: Parser) {
    && !f.upgrade && !f.flags.skipBody && cfg.onHeadersComplete(f) != 1
    && !f.flags.chunked && f.contentLength == ULLONG_MAX && !f.kind.Request? && !Bodyless(f.status)
  }

  /** The report ends with such headers. */
  predicate EndsOpenHeaders(cfg: Settings, ev: seq<Event>) {
    ev != [] && ev[|ev| - 1].Notice? && ev[|ev| - 1].note.HeadersComplete? && RunsToEnd(cfg, ev[|ev| - 1].at)
  }

  // ---- one byte ----

  /** How a byte that does not stop the call enters and leaves the two kinds of state. */
  predicate Turns(cfg: Settings, s: State, c: char, o: Out) {
    o.status.Go? ==>
      && (Between(o.p.state) <==> (Between(s) && IsLineEnd(c)) || EndsMessage(o.ev))
      && (Between(s) && !IsLineEnd(c) ==> o.ev != [])
      && (o.p.state.BodyIdentityEof? <==> s.BodyIdentityEof? || EndsOpenHeaders(cfg, o.ev))
  }

  lemma LineTurns(cfg: Settings, p: Parser, c: char)
    ensures p.state.StatusLine? ==> Turns(cfg, p.state, c, StepStatusLine(cfg, p, p.state.status, c))
    ensures p.state.ReqVersion? ==> Turns(cfg, p.state, c, StepReqVersion(p, p.state.version, c))
    ensures p.state.ReqUrl? ==> Turns(cfg, p.state, c, StepUrl(p, p.state.url, c))
  {
    hide UrlStep, RunsToEnd;
  }

  lemma HeadersAlmostDoneTurns(cfg: Settings, p: Parser, s: State, c: char)
    requires s.HeadersAlmostDone? || s.Header?
    ensures Turns(cfg, s, c, StepHeadersAlmostDone(cfg, p, c))
  {
    hide ShouldKeepAlive;
  }

  lemma HeaderTurns(cfg: Settings, p: Parser, c: char)
    requires p.state.Header?
    ensures Turns(cfg, p.state, c, StepHeader(cfg, p, p.state.header, c))
  {
    hide FieldMatch, ValueMatch, AddDigit, ShouldKeepAlive, RunsToEnd, StepHeadersAlmostDone;
    HeadersAlmostDoneTurns(cfg, p.(state := HeadersAlmostDone), p.state, c);
  }

  lemma StartTurns(cfg: Settings, p: Parser, c: char)
    requires Between(p.state) || p.state.ResOrRespH? || p.state.ReqMethod?
    ensures Turns(cfg, p.state, c, StepStart(cfg, p, c))
  {
    hide FirstMethod, OtherMethod, MethodStr, RunsToEnd, IsAlpha;
  }

  lemma BodyTurns(cfg: Settings, p: Parser, c: char)
    ensures p.state.Chunk? ==> Turns(cfg, p.state, c, StepChunk(p, p.state.chunk, c))
    ensures p.state.BodyIdentity? ==> Turns(cfg, p.state, c, StepBodyIdentity(cfg, p, c))
  {
    hide AddDigit, ShouldKeepAlive, RunsToEnd;
  }

  lemma DispatchTurns(cfg: Settings, p: Parser, c: char)
    requires !p.state.HeadersDone? && !p.state.MessageDone?
    ensures Turns(cfg, p.state, c, Dispatch(cfg, p, c))
  {
    hide StepStart, StepStatusLine, StepReqVersion, StepUrl, StepHeader, StepHeadersAlmostDone, StepChunk, StepBodyIdentity,
         RunsToEnd, Turns;
    match p.state
    case StatusLine(at) => LineTurns(cfg, p, c);
    case ReqUrl(at) => LineTurns(cfg, p, c);
    case ReqVersion(at) => LineTurns(cfg, p, c);
    case Header(at) => HeaderTurns(cfg, p, c);
    case HeadersAlmostDone => HeadersAlmostDoneTurns(cfg, p, p.state, c);
    case Chunk(at) => BodyTurns(cfg, p, c);
    case BodyIdentity => BodyTurns(cfg, p, c);
    case BodyIdentityEof => OpenBodyTurns(cfg, p, c);
    case _ => StartTurns(cfg, p, c);
  }

  lemma OpenBodyTurns(cfg: Settings, p: Parser, c: char)
    requires p.state.BodyIdentityEof?
    ensures Turns(cfg, p.state, c, Out(p, [Data(Body, [c])], Go))
  {
  }

  lemma StepTurns(cfg: Settings, p: Parser, c: char)
    requires p.errno.Ok? && Inv(p)
    ensures Turns(cfg, p.state, c, Step(cfg, p, c))
  {
    hide Dispatch, RunsToEnd, FieldMatchOk, ValueMatchOk, ChunkInv;
    DispatchTurns(cfg, Counted(p), c);
  }

  // ---- whole inputs ----

  predicate AllLineEnds(s: string) { forall i :: 0 <= i < |s| ==> IsLineEnd(s[i]) }

  /** Nothing but line ends since the start or since a message was completed. */
  ghost predicate BetweenMessages(cfg: Settings, t: ParserType, text: string) {
    exists k: nat :: k <= |text| && EndsAt(cfg, t, text, k)
  }

  ghost predicate EndsAt(cfg: Settings, t: ParserType, text: string, k: nat)
    requires k <= |text|
  {
    AllLineEnds(text[k..]) && (k == 0 || EndsMessage(Run(cfg, Init(t), text[..k]).ev))
  }

  /** Somewhere the headers of a message ended whose body has no end of its own. */
  ghost predicate InOpenBody(cfg: Settings, t: ParserType, text: string) {
    exists k: nat :: k <= |text| && OpensAt(cfg, t, text, k)
  }

  ghost predicate OpensAt(cfg: Settings, t: ParserType, text: string, k: nat)
    requires k <= |text|
  {
    EndsOpenHeaders(cfg, Run(cfg, Init(t), text[..k]).ev)
  }

  /** The last byte of a live run. */
  lemma LastByte(cfg: Settings, t: ParserType, text: string)
    requires text != [] && Run(cfg, Init(t), text).end.Live?
    ensures var a, c := text[..|text| - 1], text[|text| - 1];
      var r := Run(cfg, Init(t), a);
      var o := Step(cfg, r.p, c);
      && r.end.Live? && r.p.errno.Ok? && Inv(r.p) && o.status.Go?
      && Run(cfg, Init(t), text).p == o.p && Run(cfg, Init(t), text).ev == r.ev + o.ev
  {
    hide Run, Step, Inv;
    var a, c := text[..|text| - 1], text[|text| - 1];
    assert text == a + [c];
    InitValid(t);
    RunAppend(cfg, Init(t), a, [c]);
    RunSound(cfg, Init(t), a);
    RunOne(cfg, Run(cfg, Init(t), a).p, c);
  }

  lemma InitValid(t: ParserType)
    ensures Init(t).errno.Ok? && Inv(Init(t)) && Between(Init(t).state)
  {
  }

  lemma EndsAtMore(cfg: Settings, t: ParserType, text: string, k: nat)
    requires text != [] && k < |text|
    ensures var n := |text| - 1;
      EndsAt(cfg, t, text, k) <==> EndsAt(cfg, t, text[..n], k) && IsLineEnd(text[n])
  {
    hide Run, EndsMessage;
    var n := |text| - 1;
    assert text[..n][..k] == text[..k];
    assert text[k..] == text[..n][k..] + [text[n]];
    assert text[k..][n - k] == text[n];
    assert forall i :: 0 <= i < n - k ==> text[..n][k..][i] == text[k..][i];
  }

  /** The state between messages is what the input says it is. */
  lemma {:induction false} BetweenMeans(cfg: Settings, t: ParserType, text: string)
    requires Run(cfg, Init(t), text).end.Live?
    ensures Between(Run(cfg, Init(t), text).p.state) <==> BetweenMessages(cfg, t, text)
    decreases |text|
  {
    hide Run, Step, EndsAt, RunsToEnd;
    if text == [] {
      assert Run(cfg, Init(t), text).p == Init(t) by { NoInput(cfg, t); }
      InitValid(t);
      NothingEnds(cfg, t, text);
    } else {
      var n := |text| - 1;
      var a, c := text[..n], text[n];
      var r := Run(cfg, Init(t), a);
      LastByte(cfg, t, text);
      StepTurns(cfg, r.p, c);
      BetweenMeans(cfg, t, a);
      BetweenGrows(cfg, t, text);
      LastWhole(cfg, t, a);
    }
  }

  lemma NoInput(cfg: Settings, t: ParserType)
    ensures Run(cfg, Init(t), []) == RunResult(Init(t), 0, [], Live)
  {
  }

  lemma NothingEnds(cfg: Settings, t: ParserType, text: string)
    requires text == []
    ensures BetweenMessages(cfg, t, text) && EndsAt(cfg, t, text, 0)
  {
    hide Run;
    assert EndsAt(cfg, t, text, 0);
  }

  /** A report that ends with a completion leaves the input between messages. */
  lemma LastWhole(cfg: Settings, t: ParserType, text: string)
    ensures EndsMessage(Run(cfg, Init(t), text).ev) ==> BetweenMessages(cfg, t, text)
    ensures |text| > 0 ==> (EndsAt(cfg, t, text, |text|) <==> EndsMessage(Run(cfg, Init(t), text).ev))
  {
    hide Run;
    assert text[..|text|] == text && text[|text|..] == [];
    if EndsMessage(Run(cfg, Init(t), text).ev) {
      assert EndsAt(cfg, t, text, |text|);
    }
  }

  lemma BetweenGrows(cfg: Settings, t: ParserType, text: string)
    requires text != []
    ensures var n := |text| - 1;
      BetweenMessages(cfg, t, text) <==>
        (BetweenMessages(cfg, t, text[..n]) && IsLineEnd(text[n])) || EndsMessage(Run(cfg, Init(t), text).ev)
  {
    hide Run, EndsAt, EndsMessage;
    var n := |text| - 1;
    LastWhole(cfg, t, text);
    if BetweenMessages(cfg, t, text) {
      var k: nat :| k <= |text| && EndsAt(cfg, t, text, k);
      if k <= n { EndsAtMore(cfg, t, text, k); }
    }
    if BetweenMessages(cfg, t, text[..n]) && IsLineEnd(text[n]) {
      var k: nat :| k <= n && EndsAt(cfg, t, text[..n], k);
      EndsAtMore(cfg, t, text, k);
    }
  }

  lemma OpenGrows(cfg: Settings, t: ParserType, text: string)
    requires text != []
    ensures InOpenBody(cfg, t, text) <==>
      InOpenBody(cfg, t, text[..|text| - 1]) || EndsOpenHeaders(cfg, Run(cfg, Init(t), text).ev)
  {
    hide Run, EndsOpenHeaders;
    var n := |text| - 1;
    assert forall k :: 0 <= k <= n ==> text[..n][..k] == text[..k];
    assert text[..|text|] == text;
    if InOpenBody(cfg, t, text) {
      var k: nat :| k <= |text| && OpensAt(cfg, t, text, k);
      if k <= n { assert OpensAt(cfg, t, text[..n], k); }
    }
    if InOpenBody(cfg, t, text[..n]) {
      var k: nat :| k <= n && OpensAt(cfg, t, text[..n], k);
      assert OpensAt(cfg, t, text, k);
    }
    if EndsOpenHeaders(cfg, Run(cfg, Init(t), text).ev) { assert OpensAt(cfg, t, text, |text|); }
  }

  lemma {:induction false} OpenMeans(cfg: Settings, t: ParserType, text: string)
    requires Run(cfg, Init(t), text).end.Live?
    ensures Run(cfg, Init(t), text).p.state.BodyIdentityEof? <==> InOpenBody(cfg, t, text)
    decreases |text|
  {
    hide Run, Step, RunsToEnd;
    if text == [] {
      NoInput(cfg, t);
      InitValid(t);
      NotOpen(cfg, t, text);
    } else {
      var a := text[..|text| - 1];
      LastByte(cfg, t, text);
      StepTurns(cfg, Run(cfg, Init(t), a).p, text[|text| - 1]);
      OpenMeans(cfg, t, a);
      OpenGrows(cfg, t, text);
      LastOpen(cfg, t, a);
    }
  }

  lemma NotOpen(cfg: Settings, t: ParserType, text: string)
    requires text == []
    ensures !InOpenBody(cfg, t, text)
  {
    assert text[..0] == [];
    NoInput(cfg, t);
  }

  lemma LastOpen(cfg: Settings, t: ParserType, text: string)
    ensures EndsOpenHeaders(cfg, Run(cfg, Init(t), text).ev) ==> InOpenBody(cfg, t, text)
  {
    hide Run, EndsOpenHeaders;
    assert text[..|text|] == text;
    if EndsOpenHeaders(cfg, Run(cfg, Init(t), text).ev) { assert OpensAt(cfg, t, text, |text|); }
  }

  /** After anything read in any pieces, the end of input is fine if and only if nothing but line ends
      came since the start or since a message was completed; it completes a message if and only if
      the body being read has no end of its own; and anywhere else it is an error. */
  lemma EndOfInput(cfg: Settings, t: ParserType, pieces: seq<string>)
    requires NonEmpty(pieces) && ReadPieces(cfg, Init(t), pieces).end.Live?
    ensures var p, text := ReadPieces(cfg, Init(t), pieces).p, Flatten(pieces);
      var r := Call(cfg, p, []);
      && (r.p == p && r.ev == [] <==> BetweenMessages(cfg, t, text))
      && (r.ev == [Notice(MessageComplete, p)] <==> InOpenBody(cfg, t, text))
      && (!BetweenMessages(cfg, t, text) && !InOpenBody(cfg, t, text) ==> r.p.errno.InvalidEofState? && r.ev == [])
  {
    hide Run, Inv, BetweenMessages, InOpenBody;
    var text := Flatten(pieces);
    InitValid(t);
    if pieces == [] {
      NoInput(cfg, t);
    } else {
      PiecesLive(cfg, t, pieces);
    }
    BetweenMeans(cfg, t, text);
    OpenMeans(cfg, t, text);
    RunSound(cfg, Init(t), text);
  }

  lemma PiecesLive(cfg: Settings, t: ParserType, pieces: seq<string>)
    requires NonEmpty(pieces) && pieces != [] && ReadPieces(cfg, Init(t), pieces).end.Live?
    ensures var r := Run(cfg, Init(t), Flatten(pieces)); r.end.Live? && r.p == ReadPieces(cfg, Init(t), pieces).p
  {
    hide Run, Inv, ReadPieces, HeldFrom;
    InitValid(t);
    SplitInvariance(cfg, Init(t), pieces);
    assert Flatten(pieces) != [] by { assert pieces[0] != []; }
  }
}

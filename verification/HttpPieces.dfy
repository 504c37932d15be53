/** Calling the parser again and again: how the input is cut into calls. */
module HttpPieces {
  import opened HttpTypes
  import opened HttpStep
  import opened HttpInvariant
  import opened HttpTrace
  import opened HttpExecute

  function Flatten(pieces: seq<string>): string {
    if pieces == [] then [] else pieces[0] + Flatten(pieces[1..])
  }

  predicate NonEmpty(pieces: seq<string>) { forall i :: 0 <= i < |pieces| ==> pieces[i] != [] }

  /** Call after call, as long as the parser is going; an empty piece is the end of input. */
  function ReadPieces(cfg: Settings, p: Parser, pieces: seq<string>): RunResult
    decreases |pieces|
  {
    if pieces == [] then RunResult(p, 0, [], Live)
    else
      var r := Call(cfg, p, pieces[0]);
      if r.end.Live? then Then(r, ReadPieces(cfg, r.p, pieces[1..])) else r
  }

  // ---- what is held back at a failing byte ----

  function Min(a: nat, b: nat): nat { if a < b then a else b }

  /** A call holds back what was read since it began, at most. */
  lemma {:induction false} HeldClip(cfg: Settings, p: Parser, data: string, h: nat, k: nat)
    ensures HeldFrom(cfg, p, data, Min(h, k)) == Min(HeldFrom(cfg, p, data, h), k + |data|)
    decreases |data|
  {
    hide Step;
    if data != [] {
      var o := Step(cfg, p, data[0]);
      HeldClip(cfg, o.p, data[1..], HeldStep(h, p.state, o.p.state), k + 1);
    }
  }

  /** The kind of data that is held back in a state. */
  function HeldKind(s: State): Kind { if Collecting(s).Some? then Collecting(s).value else Body }

  lemma BodyStepHeld(cfg: Settings, p: Parser, c: char)
    requires p.errno.Ok? && Inv(p) && InBody(p.state)
    ensures var o := Step(cfg, p, c);
      !o.status.StopAt? && Collecting(o.p.state).None? && (HoldsBody(o.p.state) ==> o.ev == [Data(Body, [c])])
  {
    hide Step, Inv, ShouldKeepAlive;
    if p.state.BodyIdentityEof? || p.contentLength > 1 {
      BodyByte(cfg, p, c);
    } else {
      BodyNotEmpty(p);
      LastBodyByte(cfg, p, c);
    }
  }

  lemma StepHeld(cfg: Settings, p: Parser, c: char)
    requires p.errno.Ok? && Inv(p)
    ensures var o := Step(cfg, p, c);
      && (EndOf(o).Failed? ==> o.ev == [])
      && (o.status.Go? && Collecting(o.p.state).Some? ==>
            var e := Data(Collecting(o.p.state).value, [c]);
            o.ev != [] && o.ev[|o.ev| - 1] == e && (Collecting(p.state) == Collecting(o.p.state) ==> o.ev == [e]))
      && (o.status.Go? && InBody(p.state) && HoldsBody(o.p.state) ==> o.ev == [Data(Body, [c])])
  {
    if InBody(p.state) {
      hide Step, Inv;
      BodyStepHeld(cfg, p, c);
    } else {
      hide Dispatch, Inv;
      if !(ParsingHeader(p.state) && p.nread + 1 > MAX_HEADER_SIZE) {
        CountedOk(p);
        DispatchShape(cfg, Counted(p), c);
      }
    }
  }

  /** The events of the bytes held back are the last ones reported. */
  lemma {:induction false} HeldEvents(cfg: Settings, p: Parser, data: string)
    requires p.errno.Ok? && Inv(p) && Run(cfg, p, data).end.Live?
    ensures var r := Run(cfg, p, data); var h := HeldFrom(cfg, p, data, 0);
      h <= |data| && h <= |r.ev| && r.ev[|r.ev| - h..] == ByteEvents(HeldKind(r.p.state), data[|data| - h..])
    decreases |data|
  {
    hide Step, Inv, Run, HeldFrom;
    if data == [] {
      NothingHeld(cfg, p);
    } else {
      var n := |data| - 1;
      var a, c := data[..n], data[n];
      assert data == a + [c];
      RunAppend(cfg, p, a, [c]);
      RunSound(cfg, p, a);
      HeldEvents(cfg, p, a);
      var q := Run(cfg, p, a);
      RunOne(cfg, q.p, c);
      HeldAppend(cfg, p, a, [c], 0);
      HeldOne(cfg, q.p, c, HeldFrom(cfg, p, a, 0));
      StepHeld(cfg, q.p, c);
      HeldEventsStep(q.ev, HeldFrom(cfg, p, a, 0), q.p.state, Step(cfg, q.p, c), data);
    }
  }

  lemma NothingHeld(cfg: Settings, p: Parser)
    ensures Run(cfg, p, []) == RunResult(p, 0, [], Live) && HeldFrom(cfg, p, [], 0) == 0
  {
  }

  lemma HeldEventsStep(ev: seq<Event>, h: nat, s: State, o: Out, data: string)
    requires data != [] && o.status.Go?
    requires var n := |data| - 1; h <= n && h <= |ev| && ev[|ev| - h..] == ByteEvents(HeldKind(s), data[..n][n - h..])
    requires Collecting(o.p.state).Some? ==>
      var e := Data(Collecting(o.p.state).value, [data[|data| - 1]]);
      o.ev != [] && o.ev[|o.ev| - 1] == e && (Collecting(s) == Collecting(o.p.state) ==> o.ev == [e])
    requires InBody(s) && HoldsBody(o.p.state) ==> o.ev == [Data(Body, [data[|data| - 1]])]
    ensures var all := ev + o.ev; var k := HeldStep(h, s, o.p.state);
      k <= |data| && k <= |all| && all[|all| - k..] == ByteEvents(HeldKind(o.p.state), data[|data| - k..])
  {
    var n, all, k := |data| - 1, ev + o.ev, HeldStep(h, s, o.p.state);
    var kind := HeldKind(o.p.state);
    if k == h + 1 && o.ev == [Data(kind, [data[n]])] {
      assert data[n - h..] == data[..n][n - h..] + [data[n]];
      assert all[|all| - k..] == ev[|ev| - h..] + o.ev;
    } else if k == 1 {
      assert all[|all| - 1..] == [o.ev[|o.ev| - 1]];
      assert data[n..] == [data[n]];
    }
  }

  /** A failing byte is not consumed and reports nothing itself. */
  lemma {:induction false} RunFails(cfg: Settings, p: Parser, data: string)
    requires p.errno.Ok? && Inv(p) && Run(cfg, p, data).end.Failed?
    ensures var r := Run(cfg, p, data);
      && r.n < |data|
      && var before := Run(cfg, p, data[..r.n]); before.end.Live? && before.n == r.n && before.ev == r.ev
    decreases |data|
  {
    hide Step, Inv;
    RunCons(cfg, p, data);
    var r, o := Run(cfg, p, data), Step(cfg, p, data[0]);
    StepHeld(cfg, p, data[0]);
    StepSound(cfg, p, data[0]);
    if o.status.Go? {
      RunFails(cfg, o.p, data[1..]);
      var t := Run(cfg, o.p, data[1..]);
      assert data[..r.n][1..] == data[1..][..t.n];
      RunCons(cfg, p, data[..r.n]);
    } else {
      assert data[..0] == [];
    }
  }

  // ---- split invariance ----

  /** Where the piece that holds byte n begins. */
  function CutBefore(pieces: seq<string>, n: nat): nat {
    if pieces == [] || n < |pieces[0]| then 0 else |pieces[0]| + CutBefore(pieces[1..], n - |pieces[0]|)
  }

  /** How many bytes a single call holds back at byte n of the text; they are the last ones before it. */
  function HeldAt(cfg: Settings, p: Parser, text: string, n: nat): nat
    requires n <= |text|
  {
    HeldFrom(cfg, p, text[..n], 0)
  }

  /** What reading in pieces comes to, for a run of h bytes that began before it. */
  ghost predicate PiecesAre(cfg: Settings, p: Parser, pieces: seq<string>, h: nat) {
    var r, one := ReadPieces(cfg, p, pieces), Run(cfg, p, Flatten(pieces));
    && r.p == one.p && r.n == one.n && r.end == one.end
    && (!one.end.Failed? ==> r.ev == one.ev)
    && (one.end.Failed? ==>
          && CutBefore(pieces, one.n) <= one.n < |Flatten(pieces)|
          && var held := Min(HeldFrom(cfg, p, Flatten(pieces)[..one.n], h), one.n - CutBefore(pieces, one.n));
             held <= |one.ev| && r.ev == Settled(one.ev, held))
  }

  lemma FirstPieceFails(cfg: Settings, p: Parser, pieces: seq<string>, h: nat)
    requires p.errno.Ok? && Inv(p) && pieces != [] && pieces[0] != [] && Run(cfg, p, pieces[0]).end.Failed?
    ensures PiecesAre(cfg, p, pieces, h)
  {
    hide Run, Inv, HeldFrom;
    var a, r := pieces[0], Run(cfg, p, pieces[0]);
    RunFails(cfg, p, a);
    RunAppend(cfg, p, a, Flatten(pieces[1..]));
    HeldEvents(cfg, p, a[..r.n]);
    HeldClip(cfg, p, a[..r.n], h, 0);
    assert Flatten(pieces)[..r.n] == a[..r.n];
  }

  lemma LaterPieceFails(cfg: Settings, p: Parser, pieces: seq<string>, h: nat)
    requires p.errno.Ok? && Inv(p) && pieces != [] && pieces[0] != [] && Run(cfg, p, pieces[0]).end.Live?
    requires var q := Run(cfg, p, pieces[0]).p; PiecesAre(cfg, q, pieces[1..], HeldFrom(cfg, p, pieces[0], h))
    ensures PiecesAre(cfg, p, pieces, h)
  {
    hide Run, Inv, HeldFrom;
    var a, rest := pieces[0], Flatten(pieces[1..]);
    var r := Run(cfg, p, a);
    RunSound(cfg, p, a);
    RunAppend(cfg, p, a, rest);
    var t := Run(cfg, r.p, rest);
    if t.end.Failed? {
      assert Flatten(pieces)[..|a| + t.n] == a + rest[..t.n];
      HeldAppend(cfg, p, a, rest[..t.n], h);
      var held := Min(HeldFrom(cfg, r.p, rest[..t.n], HeldFrom(cfg, p, a, h)), t.n - CutBefore(pieces[1..], t.n));
      assert Settled(r.ev + t.ev, held) == r.ev + Settled(t.ev, held);
    }
  }

  lemma {:induction false} PiecesRead(cfg: Settings, p: Parser, pieces: seq<string>, h: nat)
    requires p.errno.Ok? && Inv(p) && NonEmpty(pieces)
    ensures PiecesAre(cfg, p, pieces, h)
    decreases |pieces|
  {
    hide Inv;
    if pieces != [] {
      assert pieces[0] != [];
      var r := Run(cfg, p, pieces[0]);
      hide Run, HeldFrom;
      RunSound(cfg, p, pieces[0]);
      if r.end.Live? {
        PiecesRead(cfg, r.p, pieces[1..], HeldFrom(cfg, p, pieces[0], h));
        hide PiecesAre;
        LaterPieceFails(cfg, p, pieces, h);
      } else if r.end.Failed? {
        hide PiecesAre;
        FirstPieceFails(cfg, p, pieces, h);
      } else {
        RunAppend(cfg, p, pieces[0], Flatten(pieces[1..]));
      }
    }
  }

  lemma {:induction false} BytesOfByteEvents(k: Kind, s: string)
    ensures Bytes(ByteEvents(k, s), k) == s
    decreases |s|
  {
    if s != [] {
      assert ByteEvents(k, s)[1..] == ByteEvents(k, s[1..]);
      BytesOfByteEvents(k, s[1..]);
    }
  }

  /** Holding back fewer bytes tells the application more. */
  lemma SettledDiffers(ev: seq<Event>, k: Kind, held: string, h: nat)
    requires h < |held| <= |ev| && ev[|ev| - |held|..] == ByteEvents(k, held)
    ensures !Same(Settled(ev, h), Settled(ev, |held|))
  {
    var more, less, part := Settled(ev, h), Settled(ev, |held|), held[..|held| - h];
    assert ByteEvents(k, held)[..|held| - h] == ByteEvents(k, part);
    assert more == less + ByteEvents(k, part);
    BytesAppend(less, ByteEvents(k, part), k);
    BytesOfByteEvents(k, part);
    if Same(more, less) {
      SameDelivers(more, less, k);
    }
  }

  /** Cutting the input into calls changes neither the parser's final state nor how many bytes it
      consumes nor how it ends; without a parse error it changes nothing that is reported either. With
      one, the same is reported if and only if the bytes that a single call holds back at the failing
      byte all arrived in the piece that holds it. */
  lemma SplitInvariance(cfg: Settings, p: Parser, pieces: seq<string>)
    requires p.errno.Ok? && Inv(p) && pieces != [] && NonEmpty(pieces)
    ensures var r, one := ReadPieces(cfg, p, pieces), Call(cfg, p, Flatten(pieces));
      && r.p == one.p && r.n == one.n && r.end == one.end
      && (!one.end.Failed? ==> r.ev == one.ev)
      && (one.end.Failed? ==>
            && CutBefore(pieces, one.n) <= one.n <= |Flatten(pieces)|
            && (Same(r.ev, one.ev) <==> HeldAt(cfg, p, Flatten(pieces), one.n) <= one.n - CutBefore(pieces, one.n)))
  {
    hide Run, Inv, HeldFrom, Same;
    assert pieces[0] != [];
    PiecesRead(cfg, p, pieces, 0);
    var text := Flatten(pieces);
    var one := Run(cfg, p, text);
    if one.end.Failed? {
      RunFails(cfg, p, text);
      HeldEvents(cfg, p, text[..one.n]);
      var h, cut := HeldAt(cfg, p, text, one.n), CutBefore(pieces, one.n);
      if h <= one.n - cut {
        SameTrace(Settled(one.ev, h));
      } else {
        SettledDiffers(one.ev, HeldKind(Run(cfg, p, text[..one.n]).p.state), text[..one.n][one.n - h..], one.n - cut);
      }
    }
  }

  lemma SameTrace(t: seq<Event>)
    ensures Same(t, t)
  {
  }

  lemma CallSound(cfg: Settings, p: Parser, data: string)
    requires Valid(p)
    ensures var r := Call(cfg, p, data);
      !r.end.Aborted? && Valid(r.p) && (r.end.Live? ==> r.p.errno.Ok? && r.n == |data|)
  {
    hide Inv, Spoken;
    if p.errno.Ok? && data != [] {
      RunSound(cfg, p, data);
      SpokenIs(cfg, p, data);
    }
  }

  lemma SpokenIs(cfg: Settings, p: Parser, data: string)
    ensures Spoken(cfg, p, data) == Run(cfg, p, data).(ev := Spoken(cfg, p, data).ev)
  {
    hide Run, HeldFrom, Settled;
  }

  /** Whatever bytes arrive in whatever pieces, the end of input included, no internal assertion of a
      parser fails. */
  lemma {:induction false} AssertionsHold(cfg: Settings, p: Parser, pieces: seq<string>)
    requires Valid(p)
    ensures !ReadPieces(cfg, p, pieces).end.Aborted? && Valid(ReadPieces(cfg, p, pieces).p)
    decreases |pieces|
  {
    hide Call, Valid;
    if pieces != [] {
      CallSound(cfg, p, pieces[0]);
      if Call(cfg, p, pieces[0]).end.Live? {
        AssertionsHold(cfg, Call(cfg, p, pieces[0]).p, pieces[1..]);
      }
    }
  }

  // ---- a caller that reads in pieces ----

  lemma CallGoesOn(cfg: Settings, p: Parser, data: string)
    requires p.errno.Ok? && Inv(p) && !p.upgrade && data != []
    ensures var r := Call(cfg, p, data); r.end.Live? <==> r.p.errno.Ok? && r.n == |data| && !r.p.upgrade
  {
    hide Run, Inv, Spoken;
    RunGoesOn(cfg, p, data);
    SpokenIs(cfg, p, data);
  }

  /** What reading all pieces comes to once the first i have given `sofar`. */
  ghost predicate Progress(cfg: Settings, p: Parser, pieces: seq<string>, i: nat, sofar: RunResult)
    requires i <= |pieces|
  {
    ReadPieces(cfg, p, pieces) ==
    if sofar.end.Live? then Then(sofar, ReadPieces(cfg, sofar.p, pieces[i..])) else sofar
  }

  lemma ProgressStart(cfg: Settings, p: Parser, pieces: seq<string>)
    ensures Progress(cfg, p, pieces, 0, RunResult(p, 0, [], Live))
  {
    hide Call;
    assert pieces[0..] == pieces;
    var r := ReadPieces(cfg, p, pieces);
    assert [] + r.ev == r.ev;
  }

  lemma ProgressStep(cfg: Settings, p: Parser, pieces: seq<string>, i: nat, sofar: RunResult)
    requires i < |pieces| && sofar.end.Live? && Progress(cfg, p, pieces, i, sofar)
    ensures Progress(cfg, p, pieces, i + 1, Then(sofar, Call(cfg, sofar.p, pieces[i])))
  {
    hide Call;
    var r := Call(cfg, sofar.p, pieces[i]);
    assert pieces[i..][0] == pieces[i] && pieces[i..][1..] == pieces[i + 1..];
    if r.end.Live? {
      var t := ReadPieces(cfg, r.p, pieces[i + 1..]);
      assert sofar.ev + (r.ev + t.ev) == sofar.ev + r.ev + t.ev;
    }
  }

  lemma ProgressEnd(cfg: Settings, p: Parser, pieces: seq<string>, i: nat, sofar: RunResult)
    requires i <= |pieces| && Progress(cfg, p, pieces, i, sofar) && (sofar.end.Live? ==> i == |pieces|)
    ensures ReadPieces(cfg, p, pieces) == sofar
  {
    hide Call;
    assert pieces[|pieces|..] == [];
    assert sofar.ev + [] == sofar.ev;
  }

  /** Feeds a parser of any kind, with any callbacks, piece by piece until a call shows that it is over:
      an errno, bytes left over, or an upgrade. */
  method ExecutePieces(parser: HttpParser, cfg: Settings, pieces: seq<string>) returns (n: nat, calls: seq<Event>)
    requires Valid(parser.s) && parser.s.errno.Ok? && !parser.s.upgrade && NonEmpty(pieces)
    modifies parser
    ensures Valid(parser.s)
    ensures var r := ReadPieces(cfg, old(parser.s), pieces); parser.s == r.p && n == r.n && Same(calls, r.ev)
    ensures pieces != [] ==> var one := Call(cfg, old(parser.s), Flatten(pieces));
      parser.s == one.p && n == one.n && (!one.end.Failed? ==> Same(calls, one.ev))
  {
    hide Inv, Merged, Progress, Call, ReadPieces;
    ghost var p0 := parser.s;
    ghost var sofar := RunResult(p0, 0, [], Live);
    var i, going := 0, true;
    n, calls := 0, [];
    ProgressStart(cfg, p0, pieces);
    while i < |pieces| && going
      invariant i <= |pieces| && Valid(parser.s) && parser.s == sofar.p && n == sofar.n && Same(calls, sofar.ev)
      invariant going <==> sofar.end.Live?
      invariant going ==> parser.s.errno.Ok? && !parser.s.upgrade
      invariant Progress(cfg, p0, pieces, i, sofar)
    {
      ghost var r := Call(cfg, parser.s, pieces[i]);
      CallGoesOn(cfg, parser.s, pieces[i]);
      ProgressStep(cfg, p0, pieces, i, sofar);
      var len, more := parser.Execute(cfg, pieces[i]);
      SameAppend(calls, sofar.ev, more, r.ev);
      going := parser.s.errno.Ok? && len == |pieces[i]| && !parser.s.upgrade;
      n, calls, sofar, i := n + len, calls + more, Then(sofar, r), i + 1;
    }
    ProgressEnd(cfg, p0, pieces, i, sofar);
    if pieces != [] { SplitInvariance(cfg, p0, pieces); }
  }
}

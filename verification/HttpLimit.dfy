/** The limit on the bytes of a message's headers. */
module HttpLimit {
  import opened HttpTypes
  import opened UrlAutomaton
  import opened HttpStep
  import opened HttpExecute

  /** Somewhere before the end of the headers. */
  predicate InHead(p: Parser) {
    p.errno.Ok? && ParsingHeader(p.state) && !p.state.Chunk? && !p.state.HeadersDone? && !p.state.Dead? && !p.flags.trailing
  }

  predicate SaysHeadersOver(ev: seq<Event>) { exists e <- ev :: e.Notice? && e.note.HeadersComplete? }

  /** A byte that neither stops the call nor ends the headers leaves the parser in them; and it is not
      one too many. */
  predicate StaysInHead(n: nat, o: Out) {
    !o.p.errno.HeaderOverflow? && (o.status.Go? && !SaysHeadersOver(o.ev) ==> InHead(o.p) && o.p.nread == n)
  }

  lemma StatusStays(cfg: Settings, p: Parser, c: char)
    requires InHead(p) && p.state.StatusLine?
    ensures StaysInHead(p.nread, StepStatusLine(cfg, p, p.state.status, c))
  {
    hide SaysHeadersOver;
  }

  lemma RequestStays(p: Parser, c: char)
    requires InHead(p)
    ensures p.state.ReqVersion? ==> StaysInHead(p.nread, StepReqVersion(p, p.state.version, c))
    ensures p.state.ReqUrl? ==> StaysInHead(p.nread, StepUrl(p, p.state.url, c))
  {
    hide UrlStep, SaysHeadersOver;
  }

  lemma StartStays(cfg: Settings, p: Parser, c: char)
    requires InHead(p) && !p.state.StatusLine? && !p.state.ReqVersion? && !p.state.ReqUrl? && !p.state.Header? && !p.state.HeadersAlmostDone?
    ensures StaysInHead(p.nread, StepStart(cfg, p, c))
  {
    hide FirstMethod, OtherMethod, MethodStr, SaysHeadersOver;
  }

  lemma OverSays(cfg: Settings, p: Parser, c: char)
    requires !p.flags.trailing && p.errno.Ok?
    ensures StaysInHead(p.nread, StepHeadersAlmostDone(cfg, p, c))
  {
    hide ShouldKeepAlive, NeedsEof;
    var o := StepHeadersAlmostDone(cfg, p, c);
    if o.status.Go? { assert o.ev[0].Notice? && o.ev[0] in o.ev; }
  }

  lemma FieldStartStays(cfg: Settings, p: Parser, c: char)
    requires !p.flags.trailing && p.state.Header? && p.errno.Ok?
    ensures StaysInHead(p.nread, StepFieldStart(cfg, p, c))
  {
    OverSays(cfg, p.(state := HeadersAlmostDone), c);
    hide FieldMatchStart, StepHeadersAlmostDone, SaysHeadersOver;
  }

  lemma FieldStays(p: Parser, c: char)
    requires InHead(p)
    ensures StaysInHead(p.nread, StepField(p, c))
  {
    hide FieldMatch, SaysHeadersOver;
  }

  lemma ValueStays(p: Parser, c: char)
    requires InHead(p)
    ensures StaysInHead(p.nread, StepValueStart(p, c)) && StaysInHead(p.nread, StepHeaderAlmostDone(p, c))
    ensures StaysInHead(p.nread, StepValue(p, c))
  {
    hide ValueMatch, ValueMatchStart, LengthMatch, SaysHeadersOver;
  }

  lemma HeaderStays(cfg: Settings, p: Parser, c: char)
    requires InHead(p) && p.state.Header?
    ensures StaysInHead(p.nread, StepHeader(cfg, p, p.state.header, c))
  {
    hide StepFieldStart, StepField, StepValueStart, StepValue, StepHeaderAlmostDone, SaysHeadersOver;
    FieldStartStays(cfg, p, c);
    FieldStartStays(cfg, p.(state := Header(FieldStart)), c);
    FieldStays(p, c);
    ValueStays(p, c);
  }

  lemma HeadStep(cfg: Settings, p: Parser, c: char)
    requires InHead(p)
    ensures var o := Step(cfg, p, c);
      if p.nread < 81920 then StaysInHead(p.nread + 1, o)
      else o == Out(p.(nread := p.nread + 1, errno := HeaderOverflow), [], StopAt)
  {
    var q := Counted(p);
    hide StepHeader, StepStatusLine, StepUrl, StepReqVersion, StepHeadersAlmostDone, StepHeadersDone, StepStart, StepChunk;
    if q.state.Header? {
      HeaderStays(cfg, q, c);
    } else if q.state.HeadersAlmostDone? {
      OverSays(cfg, q, c);
    } else if q.state.StatusLine? {
      StatusStays(cfg, q, c);
    } else if q.state.ReqVersion? || q.state.ReqUrl? {
      RequestStays(q, c);
    } else {
      StartStays(cfg, q, c);
    }
    ObservedSays(Dispatch(cfg, q, c), c);
  }

  lemma ObservedSays(o: Out, c: char)
    ensures SaysHeadersOver(Observed(o, c).ev) <==> SaysHeadersOver(o.ev)
  {
    var k := Observed(o, c).ev;
    if SaysHeadersOver(o.ev) {
      var e :| e in o.ev && e.Notice? && e.note.HeadersComplete?;
      assert e in k;
    }
  }

  lemma {:induction false} HeadRun(cfg: Settings, p: Parser, data: string)
    requires InHead(p) && p.nread <= 81920
    requires Run(cfg, p, data).end.Live? && !SaysHeadersOver(Run(cfg, p, data).ev)
    ensures var r := Run(cfg, p, data); InHead(r.p) && r.n == |data| && r.p.nread == p.nread + |data| <= 81920
    decreases |data|
  {
    hide Step, InHead;
    if data != [] {
      var o := Step(cfg, p, data[0]);
      HeadStep(cfg, p, data[0]);
      RunCons(cfg, p, data);
      SaysParts(o.ev, Run(cfg, o.p, data[1..]).ev);
      HeadRun(cfg, o.p, data[1..]);
    }
  }

  lemma SaysParts(a: seq<Event>, b: seq<Event>)
    ensures SaysHeadersOver(a + b) <==> SaysHeadersOver(a) || SaysHeadersOver(b)
  {
    if SaysHeadersOver(a) {
      var e :| e in a && e.Notice? && e.note.HeadersComplete?;
      assert e in a + b;
    } else if SaysHeadersOver(b) {
      var e :| e in b && e.Notice? && e.note.HeadersComplete?;
      assert e in a + b;
    }
  }

  /** Whatever is sent, no more than 80 times 1024 bytes are read before the headers end; the byte behind
      them is refused as too many, and none before it. */
  lemma HeaderLimit(cfg: Settings, t: ParserType, head: string, next: char)
    requires var r := Run(cfg, Init(t), head); r.end.Live? && !SaysHeadersOver(r.ev)
    ensures |head| <= 81920
    ensures var r := Run(cfg, Init(t), head + [next]);
      && (r.p.errno.HeaderOverflow? <==> |head| == 81920)
      && (|head| == 81920 ==> r.end.Failed? && r.n == |head|)
  {
    hide Run, Step;
    HeadRun(cfg, Init(t), head);
    var q := Run(cfg, Init(t), head).p;
    RunAppend(cfg, Init(t), head, [next]);
    HeadStep(cfg, q, next);
    RunOne(cfg, q, next);
  }
}

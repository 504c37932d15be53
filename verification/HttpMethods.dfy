/** The methods of a request by name. */
module HttpMethods {
  import opened Wrappers
  import opened HttpTypes
  import opened HttpChars
  import opened HttpStep
  import opened HttpExecute
  import opened HttpRoundTrip
  import opened HttpLines

  /** The method of that name, by length: those of RFC 2616, WebDAV, DeltaV, UPnP and RFC 5789. */
  function MethodNamed(w: string): Option<Method> {
    if |w| < 5 then
      if w == "GET" then Some(Get) else if w == "PUT" then Some(Put) else if w == "HEAD" then Some(Head)
      else if w == "POST" then Some(Post) else if w == "COPY" then Some(Copy) else if w == "LOCK" then Some(Lock)
      else if w == "MOVE" then Some(Move) else None
    else if |w| == 5 then
      if w == "TRACE" then Some(Trace) else if w == "MKCOL" then Some(MkCol) else if w == "MERGE" then Some(Merge)
      else if w == "PATCH" then Some(Patch) else if w == "PURGE" then Some(Purge) else None
    else if |w| == 6 then
      if w == "DELETE" then Some(Delete) else if w == "SEARCH" then Some(Search) else if w == "UNLOCK" then Some(Unlock)
      else if w == "REPORT" then Some(Report) else if w == "NOTIFY" then Some(Notify) else None
    else if |w| < 9 then
      if w == "CONNECT" then Some(Connect) else if w == "OPTIONS" then Some(Options)
      else if w == "PROPFIND" then Some(PropFind) else if w == "CHECKOUT" then Some(Checkout)
      else if w == "M-SEARCH" then Some(MSearch) else None
    else
      if w == "PROPPATCH" then Some(PropPatch) else if w == "MKACTIVITY" then Some(MkActivity)
      else if w == "SUBSCRIBE" then Some(Subscribe) else if w == "UNSUBSCRIBE" then Some(Unsubscribe) else None
  }

  lemma ShortNamed(w: string)
    requires |w| < 6
    ensures MethodNamed(w).Some? ==> MethodStr(MethodNamed(w).value) == w
  {
  }

  lemma MediumNamed(w: string)
    requires 6 <= |w| < 9
    ensures MethodNamed(w).Some? ==> MethodStr(MethodNamed(w).value) == w
  {
  }

  lemma LongNamed(w: string)
    requires |w| >= 9
    ensures MethodNamed(w).Some? ==> MethodStr(MethodNamed(w).value) == w
  {
  }

  lemma NamedIs(w: string)
    ensures MethodNamed(w).Some? ==> MethodStr(MethodNamed(w).value) == w
  {
    hide MethodNamed, MethodStr;
    if |w| < 6 { ShortNamed(w); } else if |w| < 9 { MediumNamed(w); } else { LongNamed(w); }
  }

  lemma NameHas(m: Method)
    ensures MethodNamed(MethodStr(m)) == Some(m)
  {
    var w := MethodStr(m);
    assert w[0] != 'A' && w[1] != '#' && w[2] != '#';
  }

  lemma FirstIs(c: char)
    ensures FirstMethod(c).Some? ==> [c] <= MethodStr(FirstMethod(c).value)
  {
  }

  predicate Fits(m: Method, i: nat, c: char, o: Method)
    requires i <= |MethodStr(m)|
  {
    i < |MethodStr(o)| && MethodStr(m)[..i] + [c] == MethodStr(o)[..i + 1]
  }

  lemma OtherFitsEarly(m: Method, i: nat, c: char)
    requires i <= |MethodStr(m)| && (m.Connect? || m.MkCol? || m.Subscribe?)
    ensures var o := OtherMethod(m, i, c); o.Some? ==> Fits(m, i, c, o.value)
  {
  }

  lemma OtherFitsLate(m: Method, i: nat, c: char)
    requires i <= |MethodStr(m)| && !(m.Connect? || m.MkCol? || m.Subscribe?)
    ensures var o := OtherMethod(m, i, c); o.Some? ==> Fits(m, i, c, o.value)
  {
  }

  /** Changing its mind, the matcher goes to a method that starts with all that was read. */
  lemma OtherFits(m: Method, i: nat, c: char)
    requires i <= |MethodStr(m)|
    ensures var o := OtherMethod(m, i, c); o.Some? ==> Fits(m, i, c, o.value)
  {
    hide MethodStr, OtherMethod, Fits;
    if m.Connect? || m.MkCol? || m.Subscribe? { OtherFitsEarly(m, i, c); } else { OtherFitsLate(m, i, c); }
  }

  lemma OtherNotSpace(m: Method, i: nat)
    ensures OtherMethod(m, i, ' ').None?
  {
  }

  /** The parser has read w and has a method in mind that starts so. */
  predicate Toward(p: Parser, n: nat, w: string) {
    p.state == ReqMethod && p.index == |w| && p.nread == n && p.errno.Ok? && w <= MethodStr(p.verb)
  }

  lemma FirstToward(cfg: Settings, p: Parser, c: char)
    requires p.state.StartReq? && p.errno.Ok? && p.nread < MAX_HEADER_SIZE && c != CR && c != LF && Begins(cfg)
    ensures var o := Step(cfg, p, c);
      if o.status.Go? then Toward(o.p, p.nread + 1, [c]) else o.status.StopAt? && o.p.errno.InvalidMethod?
  {
    FirstIs(c);
    hide FirstMethod, MethodStr;
  }

  lemma NextMatch(p: Parser, w: string, c: char)
    requires Toward(p, p.nread, w) && c != ' '
    ensures var o := StepReqMethod(p, c);
      && (o.status.Go? || o.status.StopAt?)
      && if o.status.Go? then Toward(o.p, p.nread, w + [c]) else o.p.errno.InvalidMethod?
  {
    var s := MethodStr(p.verb);
    OtherFits(p.verb, |w|, c);
    hide OtherMethod, MethodStr;
    assert w == s[..|w|];
    if |w| < |s| && c == s[|w|] { assert w + [c] == s[..|w| + 1]; }
  }

  lemma NextToward(cfg: Settings, p: Parser, w: string, c: char)
    requires Toward(p, p.nread, w) && p.nread < MAX_HEADER_SIZE && c != ' '
    ensures var o := Step(cfg, p, c);
      if o.status.Go? then Toward(o.p, p.nread + 1, w + [c]) else o.status.StopAt? && o.p.errno.InvalidMethod?
  {
    hide StepReqMethod, MethodStr;
    NextMatch(p.(nread := p.nread + 1), w, c);
  }

  lemma {:induction false} RunToward(cfg: Settings, p: Parser, w: string)
    requires p.state.StartReq? && p.errno.Ok? && p.nread + |w| <= MAX_HEADER_SIZE && Begins(cfg)
    requires w != [] && w[0] != CR && w[0] != LF && ' ' !in w
    ensures var r := Run(cfg, p, w);
      if r.end.Live? then Toward(r.p, p.nread + |w|, w) else r.end.Failed? && r.p.errno.InvalidMethod?
    decreases |w|
  {
    hide Run, Step, MethodStr;
    var n := |w| - 1;
    var a, c := w[..n], w[n];
    assert w == a + [c];
    if n == 0 {
      assert w == [c];
      RunOne(cfg, p, c);
      FirstToward(cfg, p, c);
    } else {
      RunToward(cfg, p, a);
      RunAppend(cfg, p, a, [c]);
      var q := Run(cfg, p, a).p;
      if Run(cfg, p, a).end.Live? {
        NextToward(cfg, q, a, c);
        RunOne(cfg, q, c);
      }
    }
  }

  lemma SpaceRefused(cfg: Settings, p: Parser, w: string)
    requires Toward(p, p.nread, w) && p.nread < MAX_HEADER_SIZE && w != MethodStr(p.verb)
    ensures var o := Step(cfg, p, ' '); o.status.StopAt? && o.p.errno.InvalidMethod?
  {
    var s := MethodStr(p.verb);
    assert s == w + s[|w|..] && w + [] == w;
    assert |w| < |s|;
    MethodLetters(p.verb, |w|);
    OtherNotSpace(p.verb, |w|);
    hide OtherMethod, MethodStr;
  }

  /** The first word of a request is read as the method of that name, and refused if there is none. */
  lemma MethodIff(cfg: Settings, p: Parser, w: string)
    requires p.state.StartReq? && p.errno.Ok? && p.nread + |w| + 1 <= MAX_HEADER_SIZE && Begins(cfg)
    requires w != [] && w[0] != CR && w[0] != LF && ' ' !in w
    ensures var r := Run(cfg, p, w + " ");
      if MethodNamed(w).Some? then r.end.Live? && r.p.state == ReqUrl(SpacesBefore) && r.p.verb == MethodNamed(w).value
      else r.end.Failed? && r.p.errno.InvalidMethod?
  {
    hide Run, Step, MethodStr, MethodNamed;
    NamedIs(w);
    if MethodNamed(w).Some? {
      MethodEnds(cfg, p, MethodNamed(w).value);
    } else {
      RunToward(cfg, p, w);
      RunAppend(cfg, p, w, " ");
      var q := Run(cfg, p, w).p;
      if Run(cfg, p, w).end.Live? {
        NameHas(q.verb);
        SpaceRefused(cfg, q, w);
        RunOne(cfg, q, ' ');
      }
    }
  }
}

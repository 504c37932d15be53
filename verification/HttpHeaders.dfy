/** What the parser makes of header lines and whole header blocks. */
module HttpHeaders {
  import opened Wrappers
  import opened HttpTypes
  import opened HttpChars
  import opened HttpStep
  import opened HttpTrace
  import opened HttpExecute
  import opened HttpKeywords

  // ---- successful stretches of input ----

  /** The parser goes from p to q over s, reporting ev. */
  ghost predicate Reads(cfg: Settings, p: Parser, s: string, q: Parser, ev: seq<Event>) {
    Run(cfg, p, s) == RunResult(q, |s|, ev, Live)
  }

  lemma ReadsThen(cfg: Settings, p: Parser, a: string, q: Parser, e: seq<Event>, b: string, r: Parser, f: seq<Event>)
    requires Reads(cfg, p, a, q, e) && Reads(cfg, q, b, r, f)
    ensures Reads(cfg, p, a + b, r, e + f)
  {
    hide Run;
    RunAppend(cfg, p, a, b);
  }

  lemma ReadsOne(cfg: Settings, p: Parser, c: char, q: Parser, ev: seq<Event>)
    requires Step(cfg, p, c) == Out(q, ev, Go)
    ensures Reads(cfg, p, [c], q, ev)
  {
    hide Run, Step;
    RunOne(cfg, p, c);
  }

  lemma ReadsNone(cfg: Settings, p: Parser)
    ensures Reads(cfg, p, [], p, [])
  {
  }

  // ---- header names ----

  function AfterName(p: Parser, name: string): Parser
    requires name != []
  {
    p.(state := Header(InField), hstate := NameMatch(name).0, index := NameMatch(name).1, nread := p.nread + |name|)
  }

  lemma HeaderStep(cfg: Settings, p: Parser, c: char)
    requires p.state.Header? && p.nread < MAX_HEADER_SIZE
    ensures Step(cfg, p, c) == Observed(StepHeader(cfg, p.(nread := p.nread + 1), p.state.header, c), c)
  {
    hide StepHeader, Observed;
  }

  lemma NameStep(cfg: Settings, p: Parser, c: char)
    requires AtLine(p.state) && IsToken(c) && p.nread < MAX_HEADER_SIZE
    ensures Step(cfg, p, c) == Out(AfterName(p, [c]), [Data(Field, [c])], Go)
  {
    assert !IsBlank(c) && c != CR && c != LF;
    hide Step, IsToken, IsBlank, FieldMatch, FieldMatchStart, Token, StepHeadersAlmostDone, StepField, StepValue, StepValueStart;
    HeaderStep(cfg, p, c);
    assert [] + [Data(Field, [c])] == [Data(Field, [c])];
  }

  lemma NameStepOn(cfg: Settings, p: Parser, c: char)
    requires p.state == Header(InField) && IsToken(c) && p.nread < MAX_HEADER_SIZE
    requires FieldMatch(p.hstate, p.index, c).Some?
    ensures var (h, i) := FieldMatch(p.hstate, p.index, c).value;
      Step(cfg, p, c) == Out(p.(hstate := h, index := i, nread := p.nread + 1), [Data(Field, [c])], Go)
  {
    hide Step, FieldMatch, IsToken;
    HeaderStep(cfg, p, c);
    assert [] + [Data(Field, [c])] == [Data(Field, [c])];
  }

  lemma NameMore(cfg: Settings, p: Parser, name: string)
    requires AtLine(p.state) && |name| > 1 && AllTokens(name) && p.nread + |name| <= MAX_HEADER_SIZE
    ensures var n := |name| - 1;
      Step(cfg, AfterName(p, name[..n]), name[n]) == Out(AfterName(p, name), [Data(Field, [name[n]])], Go)
  {
    hide Step, FieldMatch, IsToken, NameState, LowerAll, Lowered;
    var n := |name| - 1;
    var a := name[..n];
    NameMatchSpec(a);
    NameGrows(LowerAll(a), name[n], NameMatch(a).0, NameMatch(a).1);
    NameStepOn(cfg, AfterName(p, a), name[n]);
  }

  lemma {:induction false} NameReads(cfg: Settings, p: Parser, name: string)
    requires AtLine(p.state) && name != [] && AllTokens(name) && p.nread + |name| <= MAX_HEADER_SIZE
    ensures Reads(cfg, p, name, AfterName(p, name), ByteEvents(Field, name))
    decreases |name|
  {
    hide Step, Run, FieldMatch, IsToken, AfterName, NameMatch, Reads;
    var n := |name| - 1;
    if n == 0 {
      assert name == [name[0]];
      NameStep(cfg, p, name[0]);
      ReadsOne(cfg, p, name[0], AfterName(p, name), [Data(Field, [name[0]])]);
      assert ByteEvents(Field, name) == [Data(Field, [name[0]])];
    } else {
      var a := name[..n];
      NameReads(cfg, p, a);
      NameMore(cfg, p, name);
      ReadsOne(cfg, AfterName(p, a), name[n], AfterName(p, name), [Data(Field, [name[n]])]);
      ReadsThen(cfg, p, a, AfterName(p, a), ByteEvents(Field, a), [name[n]], AfterName(p, name), [Data(Field, [name[n]])]);
      assert name == a + [name[n]];
      assert ByteEvents(Field, name) == ByteEvents(Field, a) + [Data(Field, [name[n]])];
    }
  }

  /** The colon and the blanks after it. */
  lemma ColonReads(cfg: Settings, p: Parser, blanks: string)
    requires p.state == Header(InField) && p.nread + 1 + |blanks| <= MAX_HEADER_SIZE
    requires forall i :: 0 <= i < |blanks| ==> IsBlank(blanks[i])
    ensures Reads(cfg, p, ":" + blanks, p.(state := Header(ValueStart), nread := p.nread + 1 + |blanks|), [Data(Field, [])])
  {
    hide Run, Step;
    var q := p.(state := Header(ValueStart), nread := p.nread + 1);
    HeaderStep(cfg, p, ':');
    ReadsOne(cfg, p, ':', q, [Data(Field, [])]);
    BlanksRead(cfg, q, blanks);
    ReadsThen(cfg, p, ":", q, [Data(Field, [])], blanks, q.(nread := q.nread + |blanks|), []);
    assert [Data(Field, [])] + [] == [Data(Field, [])];
  }

  lemma {:induction false} BlanksRead(cfg: Settings, p: Parser, blanks: string)
    requires p.state == Header(ValueStart) && p.nread + |blanks| <= MAX_HEADER_SIZE
    requires forall i :: 0 <= i < |blanks| ==> IsBlank(blanks[i])
    ensures Reads(cfg, p, blanks, p.(nread := p.nread + |blanks|), [])
    decreases |blanks|
  {
    hide Run;
    if blanks == [] {
      ReadsNone(cfg, p);
    } else {
      var q := p.(nread := p.nread + 1);
      assert Step(cfg, p, blanks[0]) == Out(q, [], Go);
      ReadsOne(cfg, p, blanks[0], q, []);
      BlanksRead(cfg, q, blanks[1..]);
      ReadsThen(cfg, p, [blanks[0]], q, [], blanks[1..], q.(nread := q.nread + |blanks| - 1), []);
      assert blanks == [blanks[0]] + blanks[1..];
    }
  }

  // ---- header values ----

  /** The length a whole Content-Length value denotes to the parser: digits, with spaces skipped
      after the first; nothing when it is refused. */
  function LengthAll(v: string): Option<nat>
    requires v != []
    decreases |v|
  {
    var n := |v| - 1;
    if n == 0 then if IsNum(v[0]) then Some(Digit(v[0])) else None
    else
      match LengthAll(v[..n])
      case Some(k) => LengthMatch(k, v[n])
      case None => None
  }

  /** The parser after a non-empty header value, before its line end. */
  function AfterValue(p: Parser, v: string): Parser
    requires v != []
  {
    var q := p.(state := Header(InValue), nread := p.nread + |v|);
    if p.hstate.ContentLength? then
      q.(index := 0, contentLength := if LengthAll(v).Some? then LengthAll(v).value else 0)
    else
      q.(hstate := ValueMatchAll(p.hstate, v).0, index := ValueMatchAll(p.hstate, v).1,
         flags := if p.hstate.Upgrade? then p.flags.(upgrade := true) else p.flags)
  }

  lemma ValueStep(cfg: Settings, p: Parser, c: char)
    requires p.state == Header(ValueStart) && ValueChar(c) && !IsBlank(c) && p.nread < MAX_HEADER_SIZE
    requires p.hstate.ContentLength? ==> IsNum(c)
    ensures Step(cfg, p, c) == Out(AfterValue(p, [c]), [Data(Value, [c])], Go)
  {
    hide Step, ValueMatchStart;
    HeaderStep(cfg, p, c);
    assert [] + [Data(Value, [c])] == [Data(Value, [c])];
  }

  /** One more character of a value being read. */
  function MoreValue(p: Parser, c: char): Option<Parser> {
    if p.hstate.ContentLength? then
      match LengthMatch(p.contentLength, c)
      case Some(n) => Some(p.(contentLength := n, nread := p.nread + 1))
      case None => None
    else
      match ValueMatch(p.hstate, p.index, c)
      case Some((h, i)) => Some(p.(hstate := h, index := i, nread := p.nread + 1))
      case None => None
  }

  lemma ValueStepOn(cfg: Settings, p: Parser, c: char)
    requires p.state == Header(InValue) && ValueChar(c) && p.nread < MAX_HEADER_SIZE && MoreValue(p, c).Some?
    ensures Step(cfg, p, c) == Out(MoreValue(p, c).value, [Data(Value, [c])], Go)
  {
    hide Step, ValueMatch, LengthMatch;
    HeaderStep(cfg, p, c);
    assert [] + [Data(Value, [c])] == [Data(Value, [c])];
  }

  lemma MoreLengthOk(p: Parser, v: string)
    requires |v| > 1 && p.hstate.ContentLength? && LengthAll(v).Some?
    ensures LengthAll(v[..|v| - 1]).Some?
    ensures MoreValue(AfterValue(p, v[..|v| - 1]), v[|v| - 1]) == Some(AfterValue(p, v))
  {
    hide ValueMatch, LengthMatch, ValueMatchAll;
  }

  lemma MoreOtherOk(p: Parser, v: string)
    requires |v| > 1 && !p.hstate.ContentLength? && forall i :: 0 <= i < |v| ==> ValueChar(v[i])
    ensures MoreValue(AfterValue(p, v[..|v| - 1]), v[|v| - 1]) == Some(AfterValue(p, v))
  {
    hide ValueMatch, LengthMatch, LengthAll, ValueChar;
    NeverStuck(p.hstate, v[..|v| - 1], v[|v| - 1]);
  }

  lemma MoreValueOk(p: Parser, v: string)
    requires |v| > 1 && forall i :: 0 <= i < |v| ==> ValueChar(v[i])
    requires p.hstate.ContentLength? ==> LengthAll(v).Some?
    ensures p.hstate.ContentLength? ==> LengthAll(v[..|v| - 1]).Some?
    ensures MoreValue(AfterValue(p, v[..|v| - 1]), v[|v| - 1]) == Some(AfterValue(p, v))
  {
    if p.hstate.ContentLength? {
      hide MoreValue, AfterValue, LengthAll;
      MoreLengthOk(p, v);
    } else {
      MoreOtherOk(p, v);
    }
  }

  /** The value matcher always has a next state inside a value. */
  lemma NeverStuck(h: HeaderState, v: string, c: char)
    requires v != [] && !h.ContentLength? && forall i :: 0 <= i < |v| ==> ValueChar(v[i])
    ensures var (g, i) := ValueMatchAll(h, v); !g.ContentLength? && ValueMatch(g, i, c).Some?
  {
    hide ValueMatchAll, Prefix, SaysExactly, Advance;
    ValueMatchTracks(h, v);
  }

  lemma ValueReadsOne(cfg: Settings, p: Parser, v: string)
    requires p.state == Header(ValueStart) && |v| == 1 && IsValue(v) && p.nread + 1 <= MAX_HEADER_SIZE
    requires p.hstate.ContentLength? ==> LengthAll(v).Some?
    ensures Reads(cfg, p, v, AfterValue(p, v), ByteEvents(Value, v))
  {
    assert p.hstate.ContentLength? ==> IsNum(v[0]);
    assert v == [v[0]];
    hide Run, Step, AfterValue, LengthAll, IsNum, Reads;
    ValueStep(cfg, p, v[0]);
    ReadsOne(cfg, p, v[0], AfterValue(p, v), [Data(Value, [v[0]])]);
    assert ByteEvents(Value, v) == [Data(Value, [v[0]])];
  }

  lemma ValueReadsMore(cfg: Settings, p: Parser, v: string)
    requires |v| > 1 && IsValue(v) && p.nread + |v| <= MAX_HEADER_SIZE
    requires p.hstate.ContentLength? ==> LengthAll(v).Some?
    ensures p.hstate.ContentLength? ==> LengthAll(v[..|v| - 1]).Some?
    ensures var n := |v| - 1;
      Reads(cfg, AfterValue(p, v[..n]), [v[n]], AfterValue(p, v), [Data(Value, [v[n]])])
  {
    hide Run, Step, MoreValue, AfterValue, LengthAll, Reads, ValueChar, IsBlank;
    var n := |v| - 1;
    AfterValueState(p, v[..n]);
    MoreValueOk(p, v);
    ValueStepOn(cfg, AfterValue(p, v[..n]), v[n]);
    ReadsOne(cfg, AfterValue(p, v[..n]), v[n], AfterValue(p, v), [Data(Value, [v[n]])]);
  }

  lemma {:induction false} ValueReads(cfg: Settings, p: Parser, v: string)
    requires p.state == Header(ValueStart) && v != [] && IsValue(v) && p.nread + |v| <= MAX_HEADER_SIZE
    requires p.hstate.ContentLength? ==> LengthAll(v).Some?
    ensures Reads(cfg, p, v, AfterValue(p, v), ByteEvents(Value, v))
    decreases |v|
  {
    hide Run, AfterValue, LengthAll, Reads, ValueChar, IsBlank;
    var n := |v| - 1;
    if n == 0 {
      ValueReadsOne(cfg, p, v);
    } else {
      var a := v[..n];
      ValueReadsMore(cfg, p, v);
      ValueReads(cfg, p, a);
      ReadsThen(cfg, p, a, AfterValue(p, a), ByteEvents(Value, a), [v[n]], AfterValue(p, v), [Data(Value, [v[n]])]);
      assert v == a + [v[n]];
      assert ByteEvents(Value, v) == ByteEvents(Value, a) + [Data(Value, [v[n]])];
    }
  }

  lemma AfterValueState(p: Parser, v: string)
    requires v != []
    ensures AfterValue(p, v).state == Header(InValue) && AfterValue(p, v).nread == p.nread + |v|
  {
    hide LengthAll, ValueMatchAll;
  }

  // ---- header lines ----

  /** A continuation of a header line: the blanks it starts with, its part of the value, and whether a
      carriage return comes before the line feed. */
  datatype Fold = Fold(blanks: string, value: string, crlf: bool)

  /** A header line as sent: the blanks after its colon, the value up to its first line end, that line
      end, and the lines it goes on with. */
  datatype HeaderLine = HeaderLine(name: string, blanks: string, value: string, crlf: bool, folds: seq<Fold>)

  function LineEnd(crlf: bool): string { if crlf then "\r\n" else "\n" }

  function FirstText(h: HeaderLine): string { h.name + (":" + h.blanks) + h.value + LineEnd(h.crlf) }

  function FoldText(f: Fold): string { f.blanks + f.value + LineEnd(f.crlf) }

  function FoldsText(folds: seq<Fold>): string {
    if folds == [] then [] else FoldText(folds[0]) + FoldsText(folds[1..])
  }

  function LineText(h: HeaderLine): string { FirstText(h) + FoldsText(h.folds) }

  function FirstEvents(h: HeaderLine): seq<Event> {
    ByteEvents(Field, h.name) + [Data(Field, [])] + ByteEvents(Value, h.value) + [Data(Value, [])]
  }

  function FoldsEvents(folds: seq<Fold>): seq<Event> {
    if folds == [] then [] else ByteEvents(Value, folds[0].value) + [Data(Value, [])] + FoldsEvents(folds[1..])
  }

  function LineEvents(h: HeaderLine): seq<Event> { FirstEvents(h) + FoldsEvents(h.folds) }

  predicate AllBlank(s: string) { forall i :: 0 <= i < |s| ==> IsBlank(s[i]) }

  /** Continuations the parser accepts: each starts with a blank and follows a line end that leaves the
      value open, and goes on with a length while one is being read. */
  predicate FoldsOk(length: bool, open: bool, folds: seq<Fold>)
    decreases |folds|
  {
    folds == [] ||
    var f := folds[0];
    && open && f.blanks != [] && AllBlank(f.blanks) && IsValue(f.value)
    && (length && f.value != [] ==> LengthAll(f.value).Some?)
    && FoldsOk(length && f.value != [], f.crlf || f.value != [], folds[1..])
  }

  /** A line the parser accepts: a token, a value, and a length where one is called for. A bare line
      feed right after the colon ends the header. */
  predicate LineOk(h: HeaderLine) {
    && FirstOk(h)
    && FoldsOk(HeaderKind(h.name).ContentLength? && h.value != [], h.crlf || h.value != [], h.folds)
  }

  predicate FirstOk(h: HeaderLine) {
    && h.name != [] && AllTokens(h.name) && AllBlank(h.blanks) && IsValue(h.value)
    && (HeaderKind(h.name).ContentLength? && h.value != [] ==> LengthAll(h.value).Some?)
  }

  /** The parser after the line end of a header, in its value or right after the colon and blanks. */
  function AfterLineEnd(p: Parser, crlf: bool): Parser {
    var n := p.nread + |LineEnd(crlf)|;
    if p.state == Header(InValue) then p.(state := Header(ValueLws), flags := LineFlags(p.flags, p.hstate), nread := n)
    else if crlf then p.(state := Header(ValueLws), hstate := General, index := 0, nread := n)
    else p.(state := Header(FieldStart), index := 0, nread := n)
  }

  lemma CrStep(cfg: Settings, p: Parser)
    requires (p.state == Header(InValue) || p.state == Header(ValueStart)) && p.nread < MAX_HEADER_SIZE
    ensures var q := if p.state == Header(InValue) then p else p.(hstate := General, index := 0);
      Step(cfg, p, CR) == Out(q.(state := Header(AlmostDone), nread := p.nread + 1), [Data(Value, [])], Go)
  {
    hide Step;
    HeaderStep(cfg, p, CR);
  }

  lemma LfStep(cfg: Settings, p: Parser)
    requires p.state == Header(AlmostDone) && p.nread < MAX_HEADER_SIZE
    ensures Step(cfg, p, LF) ==
      Out(p.(state := Header(ValueLws), flags := LineFlags(p.flags, p.hstate), nread := p.nread + 1), [], Go)
  {
    hide Step;
    HeaderStep(cfg, p, LF);
  }

  lemma CrlfReads(cfg: Settings, p: Parser)
    requires p.state == Header(InValue) || p.state == Header(ValueStart)
    requires p.nread + 2 <= MAX_HEADER_SIZE
    ensures Reads(cfg, p, "\r\n", AfterLineEnd(p, true), [Data(Value, [])])
  {
    hide Run, Step;
    var q := if p.state == Header(InValue) then p else p.(hstate := General, index := 0);
    var r := q.(state := Header(AlmostDone), nread := p.nread + 1);
    var t := q.(state := Header(ValueLws), flags := LineFlags(q.flags, q.hstate), nread := p.nread + 2);
    CrStep(cfg, p);
    LfStep(cfg, r);
    ReadsOne(cfg, p, CR, r, [Data(Value, [])]);
    ReadsOne(cfg, r, LF, t, []);
    ReadsThen(cfg, p, [CR], r, [Data(Value, [])], [LF], t, []);
    assert [Data(Value, [])] + [] == [Data(Value, [])];
    assert [CR] + [LF] == "\r\n";
  }

  lemma LfReads(cfg: Settings, p: Parser)
    requires p.state == Header(InValue) || p.state == Header(ValueStart)
    requires p.nread + 1 <= MAX_HEADER_SIZE
    ensures Reads(cfg, p, "\n", AfterLineEnd(p, false), [Data(Value, [])])
  {
    hide Run;
    assert Step(cfg, p, LF) == Out(AfterLineEnd(p, false), [Data(Value, [])], Go) by {
      assert [Data(Value, [])] + [] == [Data(Value, [])];
    }
    ReadsOne(cfg, p, LF, AfterLineEnd(p, false), [Data(Value, [])]);
  }

  /** The line end of a header, after its value or right after the colon when there is none. */
  lemma LineEndReads(cfg: Settings, p: Parser, crlf: bool)
    requires p.state == Header(InValue) || p.state == Header(ValueStart)
    requires p.nread + |LineEnd(crlf)| <= MAX_HEADER_SIZE
    ensures Reads(cfg, p, LineEnd(crlf), AfterLineEnd(p, crlf), [Data(Value, [])])
  {
    if crlf {
      CrlfReads(cfg, p);
    } else {
      LfReads(cfg, p);
    }
    hide Reads, AfterLineEnd;
  }

  /** The parser after the first line of a header. */
  function AfterFirst(p: Parser, h: HeaderLine): Parser
    requires h.name != []
  {
    var n := |h.name| + 1 + |h.blanks|;
    var q := p.(state := Header(ValueStart), hstate := NameMatch(h.name).0, index := NameMatch(h.name).1, nread := p.nread + n);
    AfterLineEnd(if h.value == [] then q else AfterValue(q, h.value), h.crlf)
  }

  lemma AfterFirstAt(p: Parser, h: HeaderLine)
    requires h.name != []
    ensures AfterFirst(p, h).state == if h.crlf || h.value != [] then Header(ValueLws) else Header(FieldStart)
    ensures AfterFirst(p, h).nread == p.nread + |FirstText(h)|
  {
    hide NameMatch, ValueMatchAll, LengthAll, LineFlags;
  }

  /** The name, the colon and the blanks of a line. */
  lemma LineStartReads(cfg: Settings, p: Parser, h: HeaderLine)
    requires AtLine(p.state) && FirstOk(h) && p.nread + |FirstText(h)| <= MAX_HEADER_SIZE
    ensures Reads(cfg, p, h.name + (":" + h.blanks),
      p.(state := Header(ValueStart), hstate := NameMatch(h.name).0, index := NameMatch(h.name).1,
         nread := p.nread + (|h.name| + 1 + |h.blanks|)), ByteEvents(Field, h.name) + [Data(Field, [])])
  {
    hide Run, Reads, NameMatch, LengthAll;
    var q := AfterName(p, h.name);
    NameReads(cfg, p, h.name);
    ColonReads(cfg, q, h.blanks);
    ReadsThen(cfg, p, h.name, q, ByteEvents(Field, h.name), ":" + h.blanks,
              q.(state := Header(ValueStart), nread := q.nread + 1 + |h.blanks|), [Data(Field, [])]);
  }

  /** A value, if there is one, and its line end. */
  lemma PartReads(cfg: Settings, p: Parser, v: string, crlf: bool)
    requires p.state == Header(ValueStart) && IsValue(v) && p.nread + |v| + |LineEnd(crlf)| <= MAX_HEADER_SIZE
    requires p.hstate.ContentLength? && v != [] ==> LengthAll(v).Some?
    ensures Reads(cfg, p, v + LineEnd(crlf), AfterLineEnd(if v == [] then p else AfterValue(p, v), crlf),
                  ByteEvents(Value, v) + [Data(Value, [])])
  {
    hide Run, Reads, AfterValue, LengthAll, AfterLineEnd;
    if v == [] {
      LineEndReads(cfg, p, crlf);
      assert v + LineEnd(crlf) == LineEnd(crlf);
      assert ByteEvents(Value, v) + [Data(Value, [])] == [Data(Value, [])];
    } else {
      var t := AfterValue(p, v);
      AfterValueState(p, v);
      ValueReads(cfg, p, v);
      LineEndReads(cfg, t, crlf);
      ReadsThen(cfg, p, v, t, ByteEvents(Value, v), LineEnd(crlf), AfterLineEnd(t, crlf), [Data(Value, [])]);
    }
  }

  lemma FirstReads(cfg: Settings, p: Parser, h: HeaderLine)
    requires AtLine(p.state) && FirstOk(h) && p.nread + |FirstText(h)| <= MAX_HEADER_SIZE
    ensures Reads(cfg, p, FirstText(h), AfterFirst(p, h), FirstEvents(h))
  {
    hide Run, Reads, NameMatch, AfterValue, LengthAll, AfterLineEnd, AllTokens, IsValue, ByteEvents;
    var name := h.name + (":" + h.blanks);
    var r := p.(state := Header(ValueStart), hstate := NameMatch(h.name).0, index := NameMatch(h.name).1,
                nread := p.nread + (|h.name| + 1 + |h.blanks|));
    var e, f := ByteEvents(Field, h.name) + [Data(Field, [])], ByteEvents(Value, h.value) + [Data(Value, [])];
    LineStartReads(cfg, p, h);
    NameKind(h.name);
    PartReads(cfg, r, h.value, h.crlf);
    ReadsThen(cfg, p, name, r, e, h.value + LineEnd(h.crlf), AfterFirst(p, h), f);
    assert FirstText(h) == name + (h.value + LineEnd(h.crlf));
    assert FirstEvents(h) == e + f;
  }

  // ---- folded lines ----

  /** The parser after a continuation. */
  function AfterFold(p: Parser, f: Fold): Parser {
    var q := p.(state := Header(ValueStart), nread := p.nread + |f.blanks|);
    AfterLineEnd(if f.value == [] then q else AfterValue(q, f.value), f.crlf)
  }

  function AfterFolds(p: Parser, folds: seq<Fold>): Parser
    decreases |folds|
  {
    if folds == [] then p else AfterFolds(AfterFold(p, folds[0]), folds[1..])
  }

  /** Matcher states in which another stretch of value says nothing. */
  predicate Spent(h: HeaderState) { !h.TransferEncoding? && !h.Connection? && !h.ContentLength? && !h.Upgrade? }

  /** Where a continuation may follow, the matcher still reads a length or has read all it will. */
  predicate Foldable(p: Parser, length: bool) {
    p.state == Header(ValueLws) ==> if length then p.hstate.ContentLength? else Spent(p.hstate)
  }

  lemma {:induction false} SpentStays(h: HeaderState, v: string)
    requires Spent(h) && v != []
    ensures ValueMatchAll(h, v).0 == General
    decreases |v|
  {
    hide SetBit5;
    if |v| > 1 { SpentStays(h, v[..|v| - 1]); }
  }

  lemma ValueSpends(h: HeaderState, v: string)
    requires v != [] && !h.ContentLength? && forall i :: 0 <= i < |v| ==> ValueChar(v[i])
    ensures Spent(ValueMatchAll(h, v).0)
  {
    hide ValueMatchAll, Prefix, SaysExactly, LowerAll;
    ValueMatchTracks(h, v);
  }

  lemma FirstFoldable(p: Parser, h: HeaderLine)
    requires FirstOk(h)
    ensures Foldable(AfterFirst(p, h), HeaderKind(h.name).ContentLength? && h.value != [])
  {
    hide NameMatch, ValueMatchAll, LengthAll, LineFlags, AllTokens;
    NameKind(h.name);
    if h.value != [] && !NameMatch(h.name).0.ContentLength? { ValueSpends(NameMatch(h.name).0, h.value); }
  }

  /** What a continuation changes: the length, if one is being read, and nothing else that matters. */
  lemma FoldEffect(p: Parser, f: Fold, length: bool)
    requires p.state == Header(ValueLws) && Foldable(p, length) && IsValue(f.value)
    requires length && f.value != [] ==> LengthAll(f.value).Some?
    ensures var q := AfterFold(p, f);
      && q.state == (if f.crlf || f.value != [] then Header(ValueLws) else Header(FieldStart))
      && q.nread == p.nread + |FoldText(f)| && Foldable(q, length && f.value != [])
      && q.contentLength == (if length && f.value != [] then LengthAll(f.value).value else p.contentLength)
      && q == p.(state := q.state, hstate := q.hstate, index := q.index, nread := q.nread, contentLength := q.contentLength)
  {
    hide ValueMatchAll, LengthAll;
    if f.value != [] && !length { SpentStays(p.hstate, f.value); }
  }

  lemma FoldBlankReads(cfg: Settings, p: Parser, blanks: string)
    requires p.state == Header(ValueLws) && blanks != [] && AllBlank(blanks) && p.nread + |blanks| <= MAX_HEADER_SIZE
    ensures Reads(cfg, p, blanks, p.(state := Header(ValueStart), nread := p.nread + |blanks|), [])
  {
    hide Run, Step;
    var q := p.(state := Header(ValueStart), nread := p.nread + 1);
    HeaderStep(cfg, p, blanks[0]);
    ReadsOne(cfg, p, blanks[0], q, []);
    BlanksRead(cfg, q, blanks[1..]);
    ReadsThen(cfg, p, [blanks[0]], q, [], blanks[1..], q.(nread := q.nread + |blanks| - 1), []);
    assert blanks == [blanks[0]] + blanks[1..];
  }

  lemma FoldReads(cfg: Settings, p: Parser, f: Fold)
    requires p.state == Header(ValueLws) && f.blanks != [] && AllBlank(f.blanks) && IsValue(f.value)
    requires p.hstate.ContentLength? && f.value != [] ==> LengthAll(f.value).Some?
    requires p.nread + |FoldText(f)| <= MAX_HEADER_SIZE
    ensures Reads(cfg, p, FoldText(f), AfterFold(p, f), ByteEvents(Value, f.value) + [Data(Value, [])])
  {
    hide Run, Reads, AfterValue, LengthAll, AfterLineEnd, IsValue, ByteEvents;
    var q := p.(state := Header(ValueStart), nread := p.nread + |f.blanks|);
    var told := ByteEvents(Value, f.value) + [Data(Value, [])];
    FoldBlankReads(cfg, p, f.blanks);
    PartReads(cfg, q, f.value, f.crlf);
    ReadsThen(cfg, p, f.blanks, q, [], f.value + LineEnd(f.crlf), AfterFold(p, f), told);
    assert FoldText(f) == f.blanks + (f.value + LineEnd(f.crlf));
    assert [] + told == told;
  }

  /** The continuations of a header are reported as more of its value. */
  lemma {:induction false} FoldsRead(cfg: Settings, p: Parser, length: bool, folds: seq<Fold>)
    requires AtLine(p.state) && Foldable(p, length) && FoldsOk(length, p.state == Header(ValueLws), folds)
    requires p.nread + |FoldsText(folds)| <= MAX_HEADER_SIZE
    ensures Reads(cfg, p, FoldsText(folds), AfterFolds(p, folds), FoldsEvents(folds))
    ensures AtLine(AfterFolds(p, folds).state) && AfterFolds(p, folds).nread == p.nread + |FoldsText(folds)|
    decreases |folds|
  {
    hide Run, Reads, AfterFold, LengthAll, FoldText, IsValue, AllBlank, ByteEvents;
    if folds == [] {
      ReadsNone(cfg, p);
    } else {
      var f := folds[0];
      FoldEffect(p, f, length);
      FoldReads(cfg, p, f);
      FoldsRead(cfg, AfterFold(p, f), length && f.value != [], folds[1..]);
      ReadsThen(cfg, p, FoldText(f), AfterFold(p, f), ByteEvents(Value, f.value) + [Data(Value, [])],
                FoldsText(folds[1..]), AfterFolds(p, folds), FoldsEvents(folds[1..]));
    }
  }

  /** The parser after a header line. */
  function AfterLine(p: Parser, h: HeaderLine): Parser
    requires h.name != []
  {
    AfterFolds(AfterFirst(p, h), h.folds)
  }

  /** A header line is reported as its name and its value, whatever the blanks between them, whichever
      line ends close it, and on however many lines. */
  lemma LineReads(cfg: Settings, p: Parser, h: HeaderLine)
    requires AtLine(p.state) && LineOk(h) && p.nread + |LineText(h)| <= MAX_HEADER_SIZE
    ensures Reads(cfg, p, LineText(h), AfterLine(p, h), LineEvents(h))
    ensures AtLine(AfterLine(p, h).state) && AfterLine(p, h).nread == p.nread + |LineText(h)|
  {
    LineNamed(h);
    hide Run, Reads, FirstText, FirstEvents, FirstOk, AfterFirst, FoldsOk;
    FirstReads(cfg, p, h);
    AfterFirstAt(p, h);
    FirstFoldable(p, h);
    FoldsRead(cfg, AfterFirst(p, h), HeaderKind(h.name).ContentLength? && h.value != [], h.folds);
    ReadsThen(cfg, p, FirstText(h), AfterFirst(p, h), FirstEvents(h), FoldsText(h.folds), AfterLine(p, h), FoldsEvents(h.folds));
  }

  // ---- what a line says, as whole strings ----

  /** What headers tell the parser about the message. */
  datatype Effect = Effect(flags: Flags, length: nat)

  /** The length read when a length n goes on in continuations: each one starts the number over, and
      an empty one ends it. */
  function FoldedLength(n: nat, folds: seq<Fold>): nat
    decreases |folds|
  {
    if folds == [] || folds[0].value == [] then n
    else FoldedLength(if LengthAll(folds[0].value).Some? then LengthAll(folds[0].value).value else n, folds[1..])
  }

  /** The length a Content-Length header gives; none without a value on its first line. */
  function LengthGiven(h: HeaderLine): Option<nat> {
    if h.value == [] || LengthAll(h.value).None? then None else Some(FoldedLength(LengthAll(h.value).value, h.folds))
  }

  /** The effect of a header, decided by comparing its whole name and the whole of its first line's
      value; only a length depends on continuations. */
  function HeaderEffect(e: Effect, h: HeaderLine): Effect {
    var k, v := HeaderKind(h.name), h.value;
    if v == [] then e
    else if k.ContentLength? then if LengthGiven(h).Some? then e.(length := LengthGiven(h).value) else e
    else if k.Upgrade? then e.(flags := e.flags.(upgrade := true))
    else e.(flags := LineFlags(e.flags, ValueKind(k, v)))
  }

  lemma FirstEffect(p: Parser, h: HeaderLine)
    requires FirstOk(h)
    ensures var q := AfterFirst(p, h);
      && Effect(q.flags, q.contentLength) == HeaderEffect(Effect(p.flags, p.contentLength), h.(folds := []))
      && q == p.(state := q.state, hstate := q.hstate, index := q.index, nread := q.nread,
                 flags := q.flags, contentLength := q.contentLength)
  {
    hide NameMatch, ValueMatchAll, LengthAll, SaysExactly, FirstText;
    NameKind(h.name);
    var k := NameMatch(h.name).0;
    if h.value != [] && !k.ContentLength? {
      ValueMatchSpec(k, h.value);
    }
  }

  lemma {:induction false} FoldsEffect(p: Parser, length: bool, folds: seq<Fold>)
    requires AtLine(p.state) && Foldable(p, length) && FoldsOk(length, p.state == Header(ValueLws), folds)
    ensures var q := AfterFolds(p, folds);
      && q.contentLength == (if length then FoldedLength(p.contentLength, folds) else p.contentLength)
      && q == p.(state := q.state, hstate := q.hstate, index := q.index, nread := q.nread, contentLength := q.contentLength)
    decreases |folds|
  {
    hide AfterFold, LengthAll, FoldText, IsValue, AllBlank;
    if folds != [] {
      var f := folds[0];
      FoldEffect(p, f, length);
      FoldsEffect(AfterFold(p, f), length && f.value != [], folds[1..]);
    }
  }

  /** A header line changes flags and length exactly as its whole name and value say. */
  lemma LineEffect(p: Parser, h: HeaderLine)
    requires LineOk(h)
    ensures h.name != []
    ensures var q := AfterLine(p, h);
      && Effect(q.flags, q.contentLength) == HeaderEffect(Effect(p.flags, p.contentLength), h)
      && q == p.(state := q.state, hstate := q.hstate, index := q.index, nread := q.nread,
                 flags := q.flags, contentLength := q.contentLength)
  {
    LineNamed(h);
    assert HeaderKind(h.name).ContentLength? && h.value != [] ==> LengthAll(h.value).Some?;
    hide FirstOk, AfterFirst, FoldsOk, LengthAll, HeaderKind, ValueKind, LineFlags;
    var length := HeaderKind(h.name).ContentLength? && h.value != [];
    FirstEffect(p, h);
    AfterFirstAt(p, h);
    FirstFoldable(p, h);
    FoldsEffect(AfterFirst(p, h), length, h.folds);
  }

  // ---- header blocks ----

  function BlockText(lines: seq<HeaderLine>): string {
    if lines == [] then [] else LineText(lines[0]) + BlockText(lines[1..])
  }

  function BlockEvents(lines: seq<HeaderLine>): seq<Event> {
    if lines == [] then [] else LineEvents(lines[0]) + BlockEvents(lines[1..])
  }

  predicate BlockOk(lines: seq<HeaderLine>) { forall i :: 0 <= i < |lines| ==> LineOk(lines[i]) }

  function AfterBlock(p: Parser, lines: seq<HeaderLine>): Parser
    requires BlockOk(lines)
    decreases |lines|
  {
    if lines == [] then p else AfterBlock(AfterLine(p, lines[0]), lines[1..])
  }

  lemma {:induction false} BlockReads(cfg: Settings, p: Parser, lines: seq<HeaderLine>)
    requires AtLine(p.state) && BlockOk(lines) && p.nread + |BlockText(lines)| <= MAX_HEADER_SIZE
    ensures Reads(cfg, p, BlockText(lines), AfterBlock(p, lines), BlockEvents(lines))
    ensures AtLine(AfterBlock(p, lines).state)
    decreases |lines|
  {
    hide Run, Reads, LineText, LineEvents, AfterLine, LineOk;
    if lines == [] {
      ReadsNone(cfg, p);
    } else {
      var h := lines[0];
      assert LineOk(h) && h.name != [] by { LineNamed(h); }
      var q := AfterLine(p, h);
      LineReads(cfg, p, h);
      BlockReads(cfg, q, lines[1..]);
      ReadsThen(cfg, p, LineText(h), q, LineEvents(h), BlockText(lines[1..]), AfterBlock(p, lines), BlockEvents(lines[1..]));
    }
  }

  lemma LineNamed(h: HeaderLine)
    ensures LineOk(h) ==> h.name != []
  {
    hide LengthAll;
  }

  lemma {:induction false} FoldsCount(p: Parser, folds: seq<Fold>)
    ensures AfterFolds(p, folds).nread == p.nread + |FoldsText(folds)|
    decreases |folds|
  {
    hide LengthAll, ValueMatchAll, LineFlags;
    if folds != [] { FoldsCount(AfterFold(p, folds[0]), folds[1..]); }
  }

  lemma AfterLineCount(p: Parser, h: HeaderLine)
    requires h.name != []
    ensures AfterLine(p, h).nread == p.nread + |LineText(h)|
  {
    hide AfterFirst, FirstText, AfterFolds, FoldsText;
    AfterFirstAt(p, h);
    FoldsCount(AfterFirst(p, h), h.folds);
  }

  function BlockEffect(e: Effect, lines: seq<HeaderLine>): Effect
    decreases |lines|
  {
    if lines == [] then e else BlockEffect(HeaderEffect(e, lines[0]), lines[1..])
  }

  /** A header block changes flags and length as its lines say, in order, and nothing else but the
      reading position. */
  lemma {:induction false} BlockEffectOk(p: Parser, lines: seq<HeaderLine>)
    requires BlockOk(lines)
    ensures var q := AfterBlock(p, lines);
      && Effect(q.flags, q.contentLength) == BlockEffect(Effect(p.flags, p.contentLength), lines)
      && q == p.(state := q.state, hstate := q.hstate, index := q.index, nread := p.nread + |BlockText(lines)|,
                 flags := q.flags, contentLength := q.contentLength)
    decreases |lines|
  {
    hide LineText, AfterLine, HeaderEffect, LineOk;
    if lines != [] {
      var h := lines[0];
      assert LineOk(h) && h.name != [] by { LineNamed(h); }
      LineEffect(p, h);
      AfterLineCount(p, h);
      BlockEffectOk(AfterLine(p, h), lines[1..]);
    }
  }

  // ---- the flags and the length, as whole-string statements about the block ----

  predicate SaysChunked(h: HeaderLine) {
    LowerAll(h.name) == TRANSFER_ENCODING && SaysExactly(h.value, CHUNKED)
  }

  predicate SaysConnection(h: HeaderLine, keyword: string) {
    (LowerAll(h.name) == CONNECTION || LowerAll(h.name) == PROXY_CONNECTION) && SaysExactly(h.value, keyword)
  }

  predicate SaysUpgrade(h: HeaderLine) { LowerAll(h.name) == UPGRADE && h.value != [] }

  predicate SaysLength(h: HeaderLine) { LowerAll(h.name) == CONTENT_LENGTH && h.value != [] }

  lemma HeaderFlags(e: Effect, h: HeaderLine)
    ensures var f := HeaderEffect(e, h).flags;
      && (f.chunked <==> e.flags.chunked || SaysChunked(h))
      && (f.keepAlive <==> e.flags.keepAlive || SaysConnection(h, KEEP_ALIVE))
      && (f.close <==> e.flags.close || SaysConnection(h, CLOSE))
      && (f.upgrade <==> e.flags.upgrade || SaysUpgrade(h))
      && f.trailing == e.flags.trailing && f.skipBody == e.flags.skipBody
  {
    KeywordsAre();
    KeywordsApart(LowerAll(h.name));
    var v := h.value;
    assert SaysExactly(v, KEEP_ALIVE) ==> LowerAll(v[..10])[0] == Lowered(v[0]);
    assert SaysExactly(v, CLOSE) ==> LowerAll(v[..5])[0] == Lowered(v[0]);
    hide LowerAll, LengthAll;
  }

  lemma KeywordsApart(s: string)
    ensures s == TRANSFER_ENCODING ==> s != CONNECTION && s != PROXY_CONNECTION && s != CONTENT_LENGTH && s != UPGRADE
    ensures s == CONTENT_LENGTH ==> s != CONNECTION && s != PROXY_CONNECTION && s != UPGRADE
    ensures s == UPGRADE ==> s != CONNECTION && s != PROXY_CONNECTION
  {
    assert |CONNECTION| == 10 && |PROXY_CONNECTION| == 16 && |CONTENT_LENGTH| == 14 && |TRANSFER_ENCODING| == 17 && |UPGRADE| == 7;
  }

  lemma HeaderLength(e: Effect, h: HeaderLine)
    requires LineOk(h)
    ensures SaysLength(h) ==> LengthGiven(h) == Some(HeaderEffect(e, h).length)
    ensures !SaysLength(h) ==> HeaderEffect(e, h).length == e.length
  {
    KeywordsApart(LowerAll(h.name));
    hide LowerAll, LengthAll, SaysExactly, FoldedLength, FoldsOk;
  }

  /** The flags after a block, in terms of the flags before it. */
  ghost predicate FlagsSaid(e: Flags, f: Flags, lines: seq<HeaderLine>) {
    && (f.chunked <==> e.chunked || exists h :: h in lines && SaysChunked(h))
    && (f.keepAlive <==> e.keepAlive || exists h :: h in lines && SaysConnection(h, KEEP_ALIVE))
    && (f.close <==> e.close || exists h :: h in lines && SaysConnection(h, CLOSE))
    && (f.upgrade <==> e.upgrade || exists h :: h in lines && SaysUpgrade(h))
    && f.trailing == e.trailing && f.skipBody == e.skipBody
  }

  lemma {:induction false} BlockFlags(e: Effect, lines: seq<HeaderLine>)
    ensures FlagsSaid(e.flags, BlockEffect(e, lines).flags, lines)
    decreases |lines|
  {
    hide HeaderEffect, SaysChunked, SaysConnection, SaysUpgrade;
    if lines != [] {
      HeaderFlags(e, lines[0]);
      BlockFlags(HeaderEffect(e, lines[0]), lines[1..]);
      assert lines == [lines[0]] + lines[1..];
    }
  }

  /** Line k is the last that gives a length. */
  predicate LastLength(lines: seq<HeaderLine>, k: nat) {
    k < |lines| && SaysLength(lines[k]) && forall i :: k < i < |lines| ==> !SaysLength(lines[i])
  }

  /** The length after a block, in terms of the length before it. */
  ghost predicate LengthSaid(e: nat, f: nat, lines: seq<HeaderLine>) {
    && ((forall h :: h in lines ==> !SaysLength(h)) ==> f == e)
    && (forall k: nat :: LastLength(lines, k) ==> LengthGiven(lines[k]) == Some(f))
  }

  lemma LengthSaidMore(e: nat, m: nat, f: nat, lines: seq<HeaderLine>)
    requires lines != [] && LengthSaid(m, f, lines[1..])
    requires if SaysLength(lines[0]) then LengthGiven(lines[0]) == Some(m) else m == e
    ensures LengthSaid(e, f, lines)
  {
    hide LengthGiven;
    var rest := lines[1..];
    assert lines == [lines[0]] + rest;
    forall k: nat | LastLength(lines, k) ensures LengthGiven(lines[k]) == Some(f) {
      hide SaysLength;
      if k > 0 {
        assert LastLength(rest, k - 1);
      } else {
        assert forall i :: 0 <= i < |rest| ==> rest[i] == lines[i + 1];
      }
    }
  }

  lemma {:induction false} BlockLength(e: Effect, lines: seq<HeaderLine>)
    requires BlockOk(lines)
    ensures LengthSaid(e.length, BlockEffect(e, lines).length, lines)
    decreases |lines|
  {
    hide HeaderEffect, LengthGiven, LineOk;
    if lines != [] {
      hide LastLength, LengthSaid;
      HeaderLength(e, lines[0]);
      BlockLength(HeaderEffect(e, lines[0]), lines[1..]);
      LengthSaidMore(e.length, HeaderEffect(e, lines[0]).length, BlockEffect(e, lines).length, lines);
    }
  }

  /** Over any header block, with any blanks after the colons, any line ends and any
      continuations, the parser reports every line and ends with each connection flag set exactly when some line says so, compared as
      whole strings ignoring case, and with the length the last Content-Length line gives. */
  lemma BlockTells(cfg: Settings, p: Parser, lines: seq<HeaderLine>)
    requires AtLine(p.state) && BlockOk(lines) && p.nread + |BlockText(lines)| <= MAX_HEADER_SIZE
    ensures var r := Run(cfg, p, BlockText(lines));
      && r.end.Live? && r.n == |BlockText(lines)| && r.ev == BlockEvents(lines)
      && FlagsSaid(p.flags, r.p.flags, lines) && LengthSaid(p.contentLength, r.p.contentLength, lines)
  {
    hide Run, BlockText, BlockEvents, AfterBlock, BlockEffect, FlagsSaid, LengthSaid, BlockOk;
    BlockReads(cfg, p, lines);
    BlockEffectOk(p, lines);
    BlockFlags(Effect(p.flags, p.contentLength), lines);
    BlockLength(Effect(p.flags, p.contentLength), lines);
  }

  // ---- headers as the library prints them ----

  /** Each header on a line of its own, one space after the colon. */
  function Printed(headers: seq<(string, string)>): (lines: seq<HeaderLine>)
    ensures |lines| == |headers|
    ensures forall i :: 0 <= i < |lines| ==> lines[i] == HeaderLine(headers[i].0, " ", headers[i].1, true, [])
  {
    seq(|headers|, i requires 0 <= i < |headers| => HeaderLine(headers[i].0, " ", headers[i].1, true, []))
  }

  function FoldsValue(folds: seq<Fold>): string {
    if folds == [] then [] else folds[0].value + FoldsValue(folds[1..])
  }

  /** The value reported of a header: what stands on its lines, without the blanks they start with. */
  function Whole(h: HeaderLine): string { h.value + FoldsValue(h.folds) }

  /** For one: a length of 1 that goes on with 2 is reported as 12 and counts as 2. */
  lemma FoldStartsOver(h: HeaderLine)
    requires h == HeaderLine("Content-Length", " ", "1", true, [Fold(" ", "2", true)])
    ensures LineOk(h) && Whole(h) == "12" && LengthGiven(h) == Some(2)
  {
    assert LowerAll(h.name) == CONTENT_LENGTH;
    hide LowerAll;
    assert h.folds[1..] == [] && FoldsValue([]) == [];
    assert FoldsValue(h.folds) == "2" + [] == "2" && "1" + "2" == "12";
    assert FoldedLength(1, h.folds) == FoldedLength(2, []) == 2;
    assert FoldsOk(true, true, []);
  }

  /** The names and values of header lines. */
  function Pairs(lines: seq<HeaderLine>): (headers: seq<(string, string)>)
    ensures |headers| == |lines|
    ensures forall i :: 0 <= i < |lines| ==> headers[i] == (lines[i].name, Whole(lines[i]))
  {
    seq(|lines|, i requires 0 <= i < |lines| => (lines[i].name, Whole(lines[i])))
  }

  lemma PrintedPairs(headers: seq<(string, string)>)
    ensures Pairs(Printed(headers)) == headers
  {
    var lines := Printed(headers);
    forall i | 0 <= i < |headers| ensures Pairs(lines)[i] == headers[i] {
      assert headers[i].1 + [] == headers[i].1;
    }
  }

  /** Writes each header on a line of its own and then a blank line. */
  method WriteHeaders(headers: seq<(string, string)>) returns (s: string)
    ensures s == BlockText(Printed(headers)) + "\r\n"
  {
    ghost var lines := Printed(headers);
    s := "";
    var i := 0;
    while i < |headers|
      invariant 0 <= i <= |headers|
      invariant s + BlockText(lines[i..]) == BlockText(lines)
    {
      var line := headers[i].0 + (":" + " ") + headers[i].1 + "\r\n";
      assert BlockText(lines[i..]) == line + BlockText(lines[i + 1..]) by {
        assert lines[i..][1..] == lines[i + 1..];
      }
      assert s + (line + BlockText(lines[i + 1..])) == s + line + BlockText(lines[i + 1..]);
      s := s + line;
      i := i + 1;
    }
    assert lines[|headers|..] == [];
    assert s + [] == s;
    s := s + "\r\n";
  }
}

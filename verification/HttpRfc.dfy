/** How the parser's framing of responses compares with RFC 2616, section 4.4. */
module HttpRfc {
  import opened Wrappers
  import opened HttpTypes
  import opened HttpChars
  import opened Numbers
  import opened HttpStep
  import opened HttpInvariant
  import opened HttpTrace
  import opened HttpExecute
  import opened HttpMessage
  import opened HttpKeywords
  import opened HttpHeaders
  import opened HttpFraming
  import opened HttpBodies
  import opened HttpResponse

  // ---- field values ----

  function FoldsUnfolded(folds: seq<Fold>): string {
    if folds == [] then [] else " " + folds[0].value + FoldsUnfolded(folds[1..])
  }

  /** A header's value with every continuation joined by one space. */
  function Unfolded(h: HeaderLine): string { h.value + FoldsUnfolded(h.folds) }

  function TrimStart(v: string): string
    decreases |v|
  {
    if v != [] && IsBlank(v[0]) then TrimStart(v[1..]) else v
  }

  function TrimEnd(v: string): string
    decreases |v|
  {
    if v != [] && IsBlank(v[|v| - 1]) then TrimEnd(v[..|v| - 1]) else v
  }

  /** The value of a header field as RFC 2616, section 4.2, has it: unfolded, without the blanks around it. */
  function FieldValue(h: HeaderLine): string { TrimEnd(TrimStart(Unfolded(h))) }

  // ---- the RFC's rule ----

  /** A transfer coding other than identity is applied to the body (rule 2). */
  predicate HasCoding(h: HeaderLine) {
    LowerAll(h.name) == TRANSFER_ENCODING && FieldValue(h) != [] && LowerAll(FieldValue(h)) != "identity"
  }

  ghost predicate Coded(lines: seq<HeaderLine>) { exists h :: h in lines && HasCoding(h) }

  predicate IsLengthLine(h: HeaderLine) { LowerAll(h.name) == CONTENT_LENGTH }

  /** The number a field value denotes; only digits denote one. */
  function FieldNumber(h: HeaderLine): Option<nat> {
    var v := FieldValue(h);
    if v != [] && AllDigits(v) then Some(DecValue(v)) else None
  }

  /** What the Content-Length lines say together: nothing, one number, or nothing the grammar allows. */
  datatype Announcement = Absent | Announced(n: nat) | Malformed

  function LengthAnnounced(lines: seq<HeaderLine>): Announcement
    decreases |lines|
  {
    if lines == [] then Absent
    else
      var rest := LengthAnnounced(lines[1..]);
      if !IsLengthLine(lines[0]) then rest
      else
        match FieldNumber(lines[0])
        case None => Malformed
        case Some(n) => if rest == Absent || rest == Announced(n) then Announced(n) else Malformed
  }

  /** How far a response reaches past its headers, rule by rule: no body after certain codes or to a
      HEAD request, whatever the headers say (1); chunks if there is a transfer coding, whatever the
      length (2); the length (3); the end of the stream (5). None where the headers are not what the
      grammar allows. */
  ghost function RfcExtent(lines: seq<HeaderLine>, code: nat, toHead: bool): Option<Extent> {
    if Bodyless(code) || toHead then Some(NoBody)
    else if Coded(lines) then Some(InChunks)
    else
      match LengthAnnounced(lines)
      case Absent => Some(UntilClose)
      case Announced(n) => Some(if n == 0 then NoBody else Exactly(n))
      case Malformed => None
  }

  // ---- the responses on which the parser agrees ----

  ghost predicate Chunked(lines: seq<HeaderLine>) { exists h :: h in lines && SaysChunked(h) }

  ghost predicate Upgraded(lines: seq<HeaderLine>) { exists h :: h in lines && SaysUpgrade(h) }

  /** Some Content-Length line has its number on its first line. */
  ghost predicate LengthSeen(lines: seq<HeaderLine>) { exists h :: h in lines && SaysLength(h) }

  /** A response to HEAD; or an upgrade without a body; or a code without body that comes without
      chunks and without a length; or, of the others, one whose transfer coding, if any, is exactly
      chunked, and whose length otherwise is below 2^64 - 1 and on the header's first line. */
  ghost predicate FollowsRfc(lines: seq<HeaderLine>, code: nat, toHead: bool) {
    if toHead then true
    else if Upgraded(lines) then Bodyless(code) || (!Coded(lines) && LengthAnnounced(lines) == Announced(0))
    else if Bodyless(code) then !Chunked(lines) && (Said(lines).length == 0 || Said(lines).length == ULLONG_MAX)
    else if Coded(lines) then Chunked(lines)
    else LengthAnnounced(lines).Announced? ==> LengthAnnounced(lines).n < ULLONG_MAX && LengthSeen(lines)
  }

  // ---- trimming ----

  lemma {:induction false} TrimEndKeeps(v: string, j: nat)
    requires j < |v| && !IsBlank(v[j])
    ensures j < |TrimEnd(v)| <= |v| && TrimEnd(v) == v[..|TrimEnd(v)|]
    decreases |v|
  {
    if IsBlank(v[|v| - 1]) { TrimEndKeeps(v[..|v| - 1], j); }
  }

  lemma {:induction false} TrimEndBlanks(v: string, blanks: string)
    requires AllBlank(blanks)
    ensures TrimEnd(v + blanks) == TrimEnd(v)
    decreases |blanks|
  {
    if blanks == [] {
      assert v + blanks == v;
    } else {
      var n := |blanks| - 1;
      assert (v + blanks)[..|v| + n] == v + blanks[..n];
      TrimEndBlanks(v, blanks[..n]);
    }
  }

  /** A value on the first line keeps its first character. */
  lemma FirstKept(h: HeaderLine)
    requires h.value != [] && IsValue(h.value)
    ensures FieldValue(h) == TrimEnd(Unfolded(h)) && FieldValue(h) != [] && FieldValue(h)[0] == h.value[0]
  {
    assert Unfolded(h)[0] == h.value[0];
    TrimEndKeeps(Unfolded(h), 0);
  }

  /** What the parser takes for chunked is a transfer coding. */
  lemma ChunkedIsCoding(h: HeaderLine)
    requires SaysChunked(h) && IsValue(h.value)
    ensures HasCoding(h)
  {
    KeywordsAre();
    assert LowerAll(h.value[..7])[0] == 'c';
    hide TrimStart, TrimEnd;
    FirstKept(h);
    assert LowerAll(FieldValue(h))[0] == 'c' && "identity"[0] == 'i';
  }

  // ---- lengths ----

  lemma {:induction false} OnlyBlanks(folds: seq<Fold>)
    requires forall f <- folds :: f.value == []
    ensures AllBlank(FoldsUnfolded(folds))
    decreases |folds|
  {
    if folds != [] {
      assert folds[0] in folds;
      OnlyBlanks(folds[1..]);
    }
  }

  /** A continuation with a value puts a space inside the field value. */
  lemma {:induction false} SomeValue(folds: seq<Fold>, f: Fold) returns (j: nat)
    requires f in folds && f.value != [] && IsValue(f.value)
    ensures 0 < j < |FoldsUnfolded(folds)| && !IsBlank(FoldsUnfolded(folds)[j]) && FoldsUnfolded(folds)[0] == ' '
    decreases |folds|
  {
    var head := " " + folds[0].value;
    if folds[0] == f {
      j := 1;
      assert FoldsUnfolded(folds)[1] == f.value[0];
    } else {
      j := SomeValue(folds[1..], f);
      j := |head| + j;
      assert FoldsUnfolded(folds)[j] == FoldsUnfolded(folds[1..])[j - |head|];
    }
  }

  lemma {:induction false} FoldIsValue(length: bool, open: bool, folds: seq<Fold>, f: Fold)
    requires FoldsOk(length, open, folds) && f in folds
    ensures IsValue(f.value)
    decreases |folds|
  {
    hide LengthAll;
    if f != folds[0] { FoldIsValue(length && folds[0].value != [], folds[0].crlf || folds[0].value != [], folds[1..], f); }
  }

  lemma FoldedNotNumber(h: HeaderLine, f: Fold)
    requires LineOk(h) && h.value != [] && f in h.folds && f.value != []
    ensures FieldNumber(h).None?
  {
    hide LengthAll, DecValue, HeaderKind, AllTokens;
    FirstKept(h);
    FoldIsValue(HeaderKind(h.name).ContentLength? && h.value != [], h.crlf || h.value != [], h.folds, f);
    var v := Unfolded(h);
    var j := SomeValue(h.folds, f);
    assert v[|h.value| + j] == FoldsUnfolded(h.folds)[j] && v[|h.value|] == ' ';
    TrimEndKeeps(v, |h.value| + j);
    assert FieldValue(h)[|h.value|] == ' ';
  }

  /** A field value of digits stands on the header's first line alone. */
  lemma NumberOnFirstLine(h: HeaderLine)
    requires LineOk(h) && h.value != [] && FieldNumber(h).Some?
    ensures (forall f <- h.folds :: f.value == []) && FieldValue(h) == TrimEnd(h.value)
  {
    assert IsValue(h.value);
    hide LineOk, FieldNumber, TrimStart, TrimEnd;
    FirstKept(h);
    forall f | f in h.folds ensures f.value == [] {
      if f.value != [] { FoldedNotNumber(h, f); }
    }
    OnlyBlanks(h.folds);
    TrimEndBlanks(h.value, FoldsUnfolded(h.folds));
  }

  lemma {:induction false} LengthTrimmed(v: string)
    requires v != [] && LengthAll(v).Some? && TrimEnd(v) != []
    ensures LengthAll(TrimEnd(v)) == LengthAll(v)
    decreases |v|
  {
    var n := |v| - 1;
    assert v[..0] == [];
    if n > 0 && IsBlank(v[n]) { LengthTrimmed(v[..n]); }
  }

  lemma LengthBelow(v: string)
    requires v != [] && LengthAll(v).Some?
    ensures LengthAll(v).value < ULLONG_MAX
  {
  }

  /** The parser reads a number exactly if it is below 2^64 - 1. */
  lemma NumberRead(h: HeaderLine)
    requires LineOk(h) && SaysLength(h) && FieldNumber(h).Some?
    ensures LengthGiven(h).Some? && LengthGiven(h).value < ULLONG_MAX
    ensures FieldNumber(h).value < ULLONG_MAX ==> LengthGiven(h) == FieldNumber(h)
  {
    LengthKind(h);
    NumberOnFirstLine(h);
    hide LowerAll, TrimStart, TrimEnd, LengthAll, AllTokens, FoldsOk, Unfolded;
    assert FoldedLength(LengthAll(h.value).value, h.folds) == LengthAll(h.value).value by {
      if h.folds != [] { assert h.folds[0] in h.folds; }
    }
    LengthTrimmed(h.value);
    LengthBelow(h.value);
    if FieldNumber(h).value < ULLONG_MAX { LengthOfDigits(FieldValue(h)); }
  }

  lemma LengthKind(h: HeaderLine)
    requires LineOk(h) && SaysLength(h)
    ensures HeaderKind(h.name).ContentLength? && LengthAll(h.value).Some?
  {
    KeywordsApart(LowerAll(h.name));
    hide LowerAll, LengthAll, FoldsOk;
  }

  lemma {:induction false} AnnouncedByAll(lines: seq<HeaderLine>, h: HeaderLine)
    requires h in lines && IsLengthLine(h) && !LengthAnnounced(lines).Malformed?
    ensures LengthAnnounced(lines).Announced? && FieldNumber(h) == Some(LengthAnnounced(lines).n)
    decreases |lines|
  {
    hide FieldNumber, IsLengthLine;
    if h != lines[0] { AnnouncedByAll(lines[1..], h); }
  }

  /** After a block whose length lines agree on n, the parser has that length if it has seen one of
      them and n fits, and otherwise not. */
  lemma {:induction false} LengthIs(e: Effect, lines: seq<HeaderLine>, n: nat)
    requires BlockOk(lines) && forall h :: h in lines && IsLengthLine(h) ==> FieldNumber(h) == Some(n)
    ensures var f := BlockEffect(e, lines).length;
      if LengthSeen(lines) then f < ULLONG_MAX && (n < ULLONG_MAX ==> f == n) else f == e.length
    decreases |lines|
  {
    hide HeaderEffect, LineOk, FieldNumber, LengthGiven, LowerAll;
    if lines != [] {
      var h, rest := lines[0], lines[1..];
      assert lines == [h] + rest;
      HeaderLength(e, h);
      LengthIs(HeaderEffect(e, h), rest, n);
      if SaysLength(h) { NumberRead(h); }
    }
  }

  // ---- the parser's extent ----

  /** The run over the headers left the parser as a response of this extent needs it. */
  predicate Frames(r: RunResult, x: Extent) {
    if x.NoBody? then !r.end.Live? && r.p.errno.CbMessageComplete? else r.end.Live? && Awaits(r.p, x)
  }

  lemma FramedBy(toHead: bool, v: Version, code: nat, reason: string, lines: seq<HeaderLine>, x: Extent)
    requires Readable(v, code, reason, lines)
    ensures Frames(Run(ResponseSettings(toHead), Init(Response), ResponseText(v, code, reason, lines)), x)
      <==> ResponseExtent(Said(lines), code, toHead) == x
  {
    hide Run, Inv, StatusLineText, AfterBlock, BlockEvents, BlockText, BlockEffect, ParserExtent, HeadersRead, HeadersOver,
         Readable, ResponseExtent, Said;
    var cfg, p := ResponseSettings(toHead), Init(Response);
    var head := StatusLineText(v, code, reason) + BlockText(lines);
    ResponseHeadersRead(toHead, v, code, reason, lines);
    assert BlockOk(lines) by { ReadableBlock(v, code, reason, lines); }
    var q := AfterBlock(AfterStatusLine(p, v, code, reason), lines);
    ResponseExtentIs(toHead, q);
    EndsAs(cfg, q, x);
    RunAppend(cfg, p, head, "\r\n");
  }

  lemma ReadableBlock(v: Version, code: nat, reason: string, lines: seq<HeaderLine>)
    ensures Readable(v, code, reason, lines) ==> BlockOk(lines)
  {
    hide LineOk, ResponseText;
  }

  lemma EndsAs(cfg: Settings, p: Parser, x: Extent)
    requires HeadersRead(cfg, p) && LeavesAtEnd(cfg)
    ensures Frames(Run(cfg, p, "\r\n"), x) <==> ParserExtent(cfg, p) == x
  {
    hide Run, ParserExtent, HeadersRead, HeadersOver;
    BlankLineReads(cfg, p);
  }

  lemma SaidFlags(lines: seq<HeaderLine>)
    ensures (Said(lines).flags.chunked <==> Chunked(lines)) && (Said(lines).flags.upgrade <==> Upgraded(lines))
  {
    hide BlockEffect, SaysChunked, SaysUpgrade;
    BlockFlags(Effect(NO_FLAGS, ULLONG_MAX), lines);
  }

  lemma ChunkedCoded(lines: seq<HeaderLine>)
    requires BlockOk(lines)
    ensures Chunked(lines) ==> Coded(lines)
  {
    hide SaysChunked, HasCoding;
    if Chunked(lines) {
      var h :| h in lines && SaysChunked(h);
      assert LineOk(h) && IsValue(h.value) by { hide LengthAll, FoldsOk; }
      ChunkedIsCoding(h);
    }
  }

  /** The length the parser has against the one announced. */
  lemma SaidLength(lines: seq<HeaderLine>)
    requires BlockOk(lines)
    ensures LengthAnnounced(lines).Absent? ==> Said(lines).length == ULLONG_MAX
    ensures LengthAnnounced(lines).Announced? ==>
      if LengthSeen(lines) then
        Said(lines).length < ULLONG_MAX
        && (LengthAnnounced(lines).n < ULLONG_MAX ==> Said(lines).length == LengthAnnounced(lines).n)
      else Said(lines).length == ULLONG_MAX
  {
    hide BlockEffect, FieldNumber, IsLengthLine, SaysLength, LineOk;
    var a := LengthAnnounced(lines);
    if !a.Malformed? {
      var n := if a.Announced? then a.n else 0;
      forall h | h in lines && IsLengthLine(h) ensures a.Announced? && FieldNumber(h) == Some(n) { AnnouncedByAll(lines, h); }
      LengthIs(Effect(NO_FLAGS, ULLONG_MAX), lines, n);
      if LengthSeen(lines) {
        var h :| h in lines && SaysLength(h);
        assert IsLengthLine(h) by { SeenIsLine(h); }
      }
    }
  }

  lemma SeenIsLine(h: HeaderLine)
    ensures SaysLength(h) ==> IsLengthLine(h)
  {
  }

  lemma ExtentsAgree(lines: seq<HeaderLine>, code: nat, toHead: bool)
    requires BlockOk(lines) && RfcExtent(lines, code, toHead).Some?
    ensures ResponseExtent(Said(lines), code, toHead) == RfcExtent(lines, code, toHead).value <==> FollowsRfc(lines, code, toHead)
  {
    hide BlockOk, Said, Chunked, Upgraded, Coded, LengthSeen, LengthAnnounced;
    SaidFlags(lines);
    ChunkedCoded(lines);
    SaidLength(lines);
  }

  /** Read to the blank line, a response that has no body by the RFC is over and any other leaves the
      parser waiting for the body the RFC describes, if and only if FollowsRfc. */
  lemma FramedAsRfc(toHead: bool, v: Version, code: nat, reason: string, lines: seq<HeaderLine>)
    requires Readable(v, code, reason, lines)
    ensures var r := Run(ResponseSettings(toHead), Init(Response), ResponseText(v, code, reason, lines));
      var x := RfcExtent(lines, code, toHead);
      x.Some? ==> (Frames(r, x.value) <==> FollowsRfc(lines, code, toHead))
  {
    assert BlockOk(lines);
    hide Run, Readable, ResponseText, RfcExtent, FollowsRfc, ResponseExtent, Said, Frames, BlockOk;
    var x := RfcExtent(lines, code, toHead);
    if x.Some? {
      FramedBy(toHead, v, code, reason, lines, x.value);
      ExtentsAgree(lines, code, toHead);
    }
  }

  // ---- responses on which it does not ----

  /** Against the RFC: after the headers of a response that has no body by its code, the parser takes
      as many of the following bytes for its body as Content-Length says. */
  lemma BodylessMisread(p: Parser, following: string)
    requires ResponseRead(p) && Bodyless(p.status) && !p.flags.upgrade && !p.flags.chunked
    requires |following| == p.contentLength && 0 < p.contentLength < ULLONG_MAX
    ensures Finishes(Run(ResponseSettings(false), p, "\r\n" + following), 2 + |following|,
                     [Notice(HeadersComplete, HeadersOver(p))] + ByteEvents(Body, following))
  {
    hide Run, Inv, HeadersOver, ByteEvents;
    ResponseExtentIs(false, p);
    MessageFinishes(ResponseSettings(false), p, following, [], following, false);
    assert BlockEvents([]) == [] && ByteEvents(Body, following) + [] == ByteEvents(Body, following);
  }

  lemma NotModifiedSays(h: HeaderLine)
    requires h == HeaderLine("Content-Length", " ", "5", true, [])
    ensures LineOk(h) && |LineText(h)| == 19 && Said([h]) == Effect(NO_FLAGS, 5)
  {
    KeywordsAre();
    assert LowerAll(h.name) == CONTENT_LENGTH;
    hide LowerAll;
    assert [h][1..] == [];
    assert BlockEffect(HeaderEffect(Effect(NO_FLAGS, ULLONG_MAX), h), []) == HeaderEffect(Effect(NO_FLAGS, ULLONG_MAX), h);
  }

  /** For one: the headers of a 304 response that repeats the length of the unmodified document leave
      the parser waiting for five bytes of body. */
  lemma NotModifiedWaits(toHead: bool)
    ensures var h := HeaderLine("Content-Length", " ", "5", true, []);
      var r := Run(ResponseSettings(toHead), Init(Response), ResponseText(Http11, 304, "Not Modified", [h]));
      if toHead then r.end.Stopped? && r.p.errno.CbMessageComplete?
      else r.end.Live? && r.p.state.BodyIdentity? && r.p.contentLength == 5
  {
    hide Run, Inv, StatusLineText, AfterBlock, BlockEvents, BlockEffect, ParserExtent, HeadersRead, HeadersOver, LineOk, LineText;
    var cfg, h := ResponseSettings(toHead), HeaderLine("Content-Length", " ", "5", true, []);
    NotModifiedSays(h);
    NotModifiedFits(h);
    ResponseHeadersRead(toHead, Http11, 304, "Not Modified", [h]);
    var q := AfterBlock(AfterStatusLine(Init(Response), Http11, 304, "Not Modified"), [h]);
    ResponseExtentIs(toHead, q);
    BlankLineReads(cfg, q);
    RunAppend(cfg, Init(Response), StatusLineText(Http11, 304, "Not Modified") + BlockText([h]), "\r\n");
  }

  lemma NotModifiedFits(h: HeaderLine)
    requires LineOk(h) && |LineText(h)| == 19
    ensures Readable(Http11, 304, "Not Modified", [h])
  {
    hide LineOk, LineText;
    assert [h][1..] == [] && BlockText([]) == [];
    assert BlockText([h]) == LineText(h);
    assert |Dec(304)| == 3 by { assert |Dec(3)| == 1 && |Dec(30)| == 2; }
  }

  // ---- a transfer coding that is not just chunked ----

  const GZIPPED := HeaderLine("Transfer-Encoding", " ", "gzip, chunked", true, [])
  const FIVE := HeaderLine("Content-Length", " ", "5", true, [])

  lemma GzippedName(name: string)
    requires name == GZIPPED.name
    ensures LowerAll(name) == TRANSFER_ENCODING && AllTokens(name) && !HeaderKind(name).ContentLength?
  {
    assert LowerAll(name) == TRANSFER_ENCODING;
    KeywordsApart(LowerAll(name));
  }

  lemma GzippedValue(v: string)
    requires v == GZIPPED.value
    ensures IsValue(v) && !SaysExactly(v, CHUNKED) && TrimEnd(TrimStart(v)) == v && LowerAll(v) != "identity"
  {
    assert |CHUNKED| == 7 && LowerAll(v[..7])[0] == 'g' && CHUNKED[0] == 'c';
    assert |v| == 13;
  }

  lemma GzippedOk()
    ensures LineOk(GZIPPED) && |LineText(GZIPPED)| == 34 && LowerAll(GZIPPED.name) == TRANSFER_ENCODING
    ensures !SaysChunked(GZIPPED) && HasCoding(GZIPPED)
  {
    var h := GZIPPED;
    assert |h.name| == 17 && |h.value| == 13 && Unfolded(h) == h.value;
    hide LowerAll, AllTokens, HeaderKind, IsValue, SaysExactly, TrimStart, TrimEnd, LengthAll;
    GzippedName(h.name);
    GzippedValue(h.value);
  }

  lemma GzippedSays(e: Effect)
    ensures HeaderEffect(e, GZIPPED) == e
  {
    GzippedOk();
    KeywordsApart(LowerAll(GZIPPED.name));
    hide LowerAll, SaysExactly;
  }

  /** A 200 response with a transfer coding that ends in chunked, and with or without a length: the
      parser takes the length for its extent, or the end of the stream, where the RFC says chunks. */
  lemma GzippedMisread(lines: seq<HeaderLine>)
    requires lines == [GZIPPED, FIVE] || lines == [GZIPPED]
    ensures RfcExtent(lines, 200, false) == Some(InChunks)
    ensures var r := Run(ResponseSettings(false), Init(Response), ResponseText(Http11, 200, "OK", lines));
      Frames(r, if lines == [GZIPPED] then UntilClose else Exactly(5))
  {
    hide Run, StatusLineText, LineText, LineOk, HasCoding, HeaderEffect, Frames;
    GzippedOk();
    NotModifiedSays(FIVE);
    GzippedSays(Effect(NO_FLAGS, ULLONG_MAX));
    EffectMore(Effect(NO_FLAGS, ULLONG_MAX), GZIPPED, []);
    EffectMore(Effect(NO_FLAGS, ULLONG_MAX), GZIPPED, [FIVE]);
    assert [GZIPPED] + [] == [GZIPPED] && [GZIPPED] + [FIVE] == [GZIPPED, FIVE];
    assert Said([GZIPPED]) == Effect(NO_FLAGS, ULLONG_MAX) && Said([GZIPPED, FIVE]) == Said([FIVE]);
    assert lines[0] == GZIPPED;
    GzippedFits(lines);
    hide ResponseText, Readable, BlockOk;
    FramedBy(false, Http11, 200, "OK", lines, if lines == [GZIPPED] then UntilClose else Exactly(5));
  }

  lemma EffectMore(e: Effect, h: HeaderLine, rest: seq<HeaderLine>)
    ensures BlockEffect(e, [h] + rest) == BlockEffect(HeaderEffect(e, h), rest)
  {
    hide HeaderEffect;
    assert ([h] + rest)[1..] == rest;
  }

  lemma GzippedFits(lines: seq<HeaderLine>)
    requires lines == [GZIPPED, FIVE] || lines == [GZIPPED]
    requires LineOk(GZIPPED) && LineOk(FIVE) && |LineText(GZIPPED)| == 34 && |LineText(FIVE)| == 19
    ensures Readable(Http11, 200, "OK", lines)
  {
    hide LineOk, LineText;
    assert [GZIPPED, FIVE][1..] == [FIVE] && [GZIPPED][1..] == [] && [FIVE][1..] == [] && BlockText([]) == [];
    assert BlockText([GZIPPED]) == LineText(GZIPPED) && BlockText([FIVE]) == LineText(FIVE);
    assert |BlockText([GZIPPED, FIVE])| == 34 + 19;
    assert |Dec(200)| == 3 by { assert |Dec(2)| == 1 && |Dec(20)| == 2; }
  }
}

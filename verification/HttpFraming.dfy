/** Where message bodies end: the lengths the parser reads from digits, bodies of known length, and
    chunked bodies. */
module HttpFraming {
  import opened Wrappers
  import opened HttpTypes
  import opened HttpChars
  import opened Numbers
  import opened HttpStep
  import opened HttpInvariant
  import opened HttpTrace
  import opened HttpExecute
  import opened HttpHeaders

  // ---- numbers ----

  /** 64-bit arithmetic is exact below the limit, and the overflow test passes. */
  lemma AddDigitExact(n: nat, base: nat, d: nat)
    requires n * base + d < ULLONG_MAX && 1 <= base
    ensures AddDigit(n, base, d) == (n * base + d, true)
  {
    assert n * base < TWO_64;
    assert (n * base) % TWO_64 == n * base;
    assert (n * base + d) % TWO_64 == n * base + d;
    assert n * base >= n;
  }

  /** A Content-Length value of digits denotes its decimal value, below 2^64 - 1. */
  lemma {:induction false} LengthOfDigits(v: string)
    requires v != [] && AllDigits(v) && DecValue(v) < ULLONG_MAX
    ensures LengthAll(v) == Some(DecValue(v))
    decreases |v|
  {
    var n := |v| - 1;
    if n == 0 {
      assert DecValue(v[..0]) == 0;
    } else {
      LengthOfDigits(v[..n]);
      AddDigitExact(DecValue(v[..n]), 10, Digit(v[n]));
    }
  }

  /** So it is taken for its decimal value exactly below 2^64 - 1. */
  lemma LengthExact(v: string)
    requires v != [] && AllDigits(v)
    ensures LengthAll(v) == Some(DecValue(v)) <==> DecValue(v) < ULLONG_MAX
  {
    LengthBounded(v);
    if DecValue(v) < ULLONG_MAX { LengthOfDigits(v); }
  }

  lemma {:induction false} LengthBounded(v: string)
    requires v != []
    ensures LengthAll(v).Some? ==> LengthAll(v).value < ULLONG_MAX
    decreases |v|
  {
    if |v| > 1 { LengthBounded(v[..|v| - 1]); }
  }

  /** Nothing but digits, and spaces behind the first, is taken. */
  lemma {:induction false} LengthRefuses(v: string)
    requires v != []
    ensures LengthAll(v).Some? ==> 48 <= v[0] as int <= 57 && forall c <- v :: 48 <= c as int <= 57 || c == ' '
    decreases |v|
  {
    var n := |v| - 1;
    assert v == v[..n] + [v[n]];
    if n > 0 { LengthRefuses(v[..n]); }
  }

  function Zeros(k: nat): string { if k == 0 then "" else Zeros(k - 1) + "0" }

  function ThreeThen(k: nat): nat { if k == 0 then 3 else 10 * ThreeThen(k - 1) }

  lemma {:induction false} ThreeAndZeros(k: nat)
    ensures AllDigits("3" + Zeros(k)) && DecValue("3" + Zeros(k)) == ThreeThen(k)
    decreases k
  {
    if k == 0 {
      assert "3" + Zeros(0) == "3" && "3"[..0] == "";
    } else {
      ThreeAndZeros(k - 1);
      var w := "3" + Zeros(k - 1);
      assert "3" + Zeros(k) == w + "0" && (w + "0")[..|w|] == w;
      hide Zeros;
      assert DecValue(w + "0") == 10 * DecValue(w);
    }
  }

  lemma ThreeTimes()
    ensures ThreeThen(18) == 3_000_000_000_000_000_000
  {
    assert ThreeThen(3) == 3000;
    assert ThreeThen(6) == 3_000_000 by { assert ThreeThen(4) == 30000 && ThreeThen(5) == 300000; }
    assert ThreeThen(9) == 3_000_000_000 by { assert ThreeThen(7) == 30_000_000 && ThreeThen(8) == 300_000_000; }
    assert ThreeThen(12) == 3_000_000_000_000 by { assert ThreeThen(10) == 30_000_000_000 && ThreeThen(11) == 300_000_000_000; }
    assert ThreeThen(14) == 300_000_000_000_000 by { assert ThreeThen(13) == 30_000_000_000_000; }
    assert ThreeThen(16) == 30_000_000_000_000_000 by { assert ThreeThen(15) == 3_000_000_000_000_000; }
    assert ThreeThen(17) == 300_000_000_000_000_000;
  }

  lemma LengthOneMore(w: string, n: nat)
    requires w != [] && LengthAll(w) == Some(n)
    ensures LengthAll(w + "0") == LengthMatch(n, '0')
  {
    assert (w + "0")[..|w|] == w;
    hide LengthMatch;
  }

  lemma LengthMatchWraps()
    ensures LengthMatch(3_000_000_000_000_000_000, '0') == Some(30_000_000_000_000_000_000 - TWO_64)
  {
  }

  lemma ZerosStep(k: nat)
    ensures "3" + Zeros(k + 1) == ("3" + Zeros(k)) + "0"
  {
  }

  /** For one above: 3 followed by 19 zeros is taken, for that number less 2^64. */
  lemma LengthWraps()
    ensures LengthAll("3" + Zeros(19)) == Some(30_000_000_000_000_000_000 - TWO_64)
  {
    hide Zeros, ThreeThen, DecValue, LengthAll, LengthMatch;
    var w := "3" + Zeros(18);
    ThreeAndZeros(18);
    ThreeTimes();
    LengthOfDigits(w);
    LengthOneMore(w, 3_000_000_000_000_000_000);
    LengthMatchWraps();
    ZerosStep(18);
  }

  // ---- bodies of known length ----

  /** With Content-Length n the next n bytes, and no others, are body; the message completes on the
      n-th of them and not before; what follows is read as the next message, unless the
      application stops. */
  lemma IdentityFraming(cfg: Settings, p: Parser, data: string)
    requires p.errno.Ok? && Inv(p) && p.state.BodyIdentity?
    ensures |data| < p.contentLength ==>
      Run(cfg, p, data) == RunResult(p.(contentLength := p.contentLength - |data|), |data|, ByteEvents(Body, data), Live)
    ensures |data| >= p.contentLength ==>
      var n := p.contentLength;
      var q := p.(contentLength := 0, state := NewMessage(p.(contentLength := 0, state := MessageDone)));
      var told := ByteEvents(Body, data[..n]) + [Notice(MessageComplete, q)];
      Run(cfg, p, data) ==
        if cfg.onMessageComplete(q) != 0 then RunResult(q.(errno := CbMessageComplete), n, told, Stopped)
        else Then(RunResult(q, n, told, Live), Run(cfg, q, data[n..]))
  {
    hide Run, Inv, NewMessage, Step;
    if |data| < p.contentLength {
      RunBody(cfg, p, data);
    } else {
      var n := p.contentLength;
      RunBodyEnd(cfg, p, data[..n]);
      RunAppend(cfg, p, data[..n], data[n..]);
      assert data == data[..n] + data[n..];
    }
  }

  // ---- chunked bodies ----

  /** A chunk as sent: its size in digits, what stands behind the size on that line, and its bytes. */
  datatype ChunkSent = ChunkSent(size: string, extension: string, bytes: string)

  /** Behind a size the parser skips everything from a semicolon or space to the carriage return. */
  predicate ExtensionOk(ext: string) { ext != [] ==> (ext[0] == ';' || ext[0] == ' ') && CR !in ext }

  predicate SizeOk(size: string, ext: string, n: nat) {
    && size != [] && AllSizeDigits(size) && HexValue(size) == n < ULLONG_MAX
    && ExtensionOk(ext) && |size| + |ext| + 2 <= MAX_HEADER_SIZE
  }

  predicate ChunkOk(c: ChunkSent) { c.bytes != [] && SizeOk(c.size, c.extension, |c.bytes|) }

  function ChunkText(c: ChunkSent): string { c.size + c.extension + "\r\n" + c.bytes + "\r\n" }

  function ChunksText(chunks: seq<ChunkSent>): string {
    if chunks == [] then [] else ChunkText(chunks[0]) + ChunksText(chunks[1..])
  }

  /** The body the chunks carry. */
  function Joined(chunks: seq<ChunkSent>): string {
    if chunks == [] then [] else chunks[0].bytes + Joined(chunks[1..])
  }

  lemma {:induction false} SizeReads(cfg: Settings, p: Parser, size: string)
    requires p.errno.Ok? && p.state == Chunk(SizeStart) && p.nread == 0 && p.flags.chunked
    requires size != [] && AllSizeDigits(size) && HexValue(size) < ULLONG_MAX && |size| <= MAX_HEADER_SIZE
    ensures Reads(cfg, p, size, p.(state := Chunk(Size), nread := |size|, contentLength := HexValue(size)), [])
    decreases |size|
  {
    hide Run;
    var n := |size| - 1;
    var q := p.(state := Chunk(Size), nread := |size|, contentLength := HexValue(size));
    assert size == size[..n] + [size[n]];
    if n == 0 {
      assert HexValue(size[..0]) == 0;
      assert Step(cfg, p, size[0]) == Out(q, [], Go);
      ReadsOne(cfg, p, size[0], q, []);
      assert size == [size[0]];
    } else {
      var r := p.(state := Chunk(Size), nread := n, contentLength := HexValue(size[..n]));
      SizeReads(cfg, p, size[..n]);
      AddDigitExact(HexValue(size[..n]), 16, Unhex(size[n]));
      SizeStep(cfg, r, size[n], HexValue(size));
      ReadsOne(cfg, r, size[n], q, []);
      ReadsThen(cfg, p, size[..n], r, [], [size[n]], q, []);
    }
  }

  lemma SizeStep(cfg: Settings, p: Parser, c: char, n: nat)
    requires p.state == Chunk(Size) && p.flags.chunked && p.nread < MAX_HEADER_SIZE && IsSizeDigit(c)
    requires AddDigit(p.contentLength, 16, Unhex(c)) == (n, true)
    ensures Step(cfg, p, c) == Out(p.(nread := p.nread + 1, contentLength := n), [], Go)
  {
    hide AddDigit;
  }

  /** What follows a chunk size is skipped. */
  lemma {:induction false} ExtensionReads(cfg: Settings, p: Parser, ext: string)
    requires p.state == Chunk(Size) && p.flags.chunked && ExtensionOk(ext) && p.nread + |ext| <= MAX_HEADER_SIZE
    ensures Reads(cfg, p, ext, p.(state := if ext == [] then Chunk(Size) else Chunk(Parameters), nread := p.nread + |ext|), [])
    decreases |ext|
  {
    hide Run, Step;
    if ext == [] {
      ReadsNone(cfg, p);
    } else {
      var n := |ext| - 1;
      var a := ext[..n];
      var q := p.(state := if a == [] then Chunk(Size) else Chunk(Parameters), nread := p.nread + n);
      var r := p.(state := Chunk(Parameters), nread := p.nread + |ext|);
      assert ext == a + [ext[n]] && ext[n] in ext;
      assert CR !in a && (a != [] ==> a[0] == ext[0]);
      ExtensionReads(cfg, p, a);
      ExtensionStep(cfg, q, ext[n]);
      ReadsOne(cfg, q, ext[n], r, []);
      ReadsThen(cfg, p, a, q, [], [ext[n]], r, []);
    }
  }

  lemma ExtensionStep(cfg: Settings, p: Parser, c: char)
    requires p.flags.chunked && p.nread < MAX_HEADER_SIZE && c != CR
    requires p.state == Chunk(Parameters) || (p.state == Chunk(Size) && (c == ';' || c == ' '))
    ensures Step(cfg, p, c) == Out(p.(state := Chunk(Parameters), nread := p.nread + 1), [], Go)
  {
    hide AddDigit;
  }

  /** The line end after a chunk size. */
  lemma SizeLineReads(cfg: Settings, p: Parser)
    requires (p.state == Chunk(Size) || p.state == Chunk(Parameters)) && p.flags.chunked && p.nread + 2 <= MAX_HEADER_SIZE
    ensures Reads(cfg, p, "\r\n", AfterSizeLine(p), [])
  {
    hide Run, Step;
    var q := p.(state := Chunk(SizeAlmostDone), nread := p.nread + 1);
    SizeCrStep(cfg, p);
    SizeLfStep(cfg, q);
    ReadsOne(cfg, p, CR, q, []);
    ReadsOne(cfg, q, LF, AfterSizeLine(p), []);
    ReadsThen(cfg, p, [CR], q, [], [LF], AfterSizeLine(p), []);
    assert [CR] + [LF] == "\r\n";
  }

  function AfterSizeLine(p: Parser): Parser {
    if p.contentLength == 0 then p.(nread := 0, flags := p.flags.(trailing := true), state := Header(FieldStart))
    else p.(nread := 0, state := Chunk(InData))
  }

  lemma SizeCrStep(cfg: Settings, p: Parser)
    requires (p.state == Chunk(Size) || p.state == Chunk(Parameters)) && p.flags.chunked && p.nread < MAX_HEADER_SIZE
    ensures Step(cfg, p, CR) == Out(p.(state := Chunk(SizeAlmostDone), nread := p.nread + 1), [], Go)
  {
    hide AddDigit;
  }

  lemma SizeLfStep(cfg: Settings, p: Parser)
    requires p.state == Chunk(SizeAlmostDone) && p.flags.chunked && p.nread < MAX_HEADER_SIZE
    ensures Step(cfg, p, LF) == Out(AfterSizeLine(p), [], Go)
  {
  }

  /** A whole size line. */
  lemma SizeAndLineRead(cfg: Settings, p: Parser, size: string, ext: string, n: nat)
    requires p.errno.Ok? && p.state == Chunk(SizeStart) && p.nread == 0 && p.flags.chunked && SizeOk(size, ext, n)
    ensures Reads(cfg, p, size + ext + "\r\n", AfterSizeLine(p.(contentLength := n)), [])
  {
    hide Run, Reads, HexValue;
    var q := p.(state := Chunk(Size), nread := |size|, contentLength := n);
    var r := q.(state := if ext == [] then Chunk(Size) else Chunk(Parameters), nread := |size| + |ext|);
    var none: seq<Event> := [];
    SizeReads(cfg, p, size);
    ExtensionReads(cfg, q, ext);
    ReadsThen(cfg, p, size, q, none, ext, r, none);
    SizeLineReads(cfg, r);
    ReadsThen(cfg, p, size + ext, r, none + none, "\r\n", AfterSizeLine(r), none);
    assert none + none + none == none;
  }

  lemma DataLineReads(cfg: Settings, p: Parser)
    requires p.state == Chunk(DataAlmostDone) && p.flags.chunked && p.contentLength == 0
    ensures Reads(cfg, p, "\r\n", p.(nread := 0, state := Chunk(SizeStart)), [])
  {
    hide Run;
    var q := p.(state := Chunk(DataDone));
    var r := p.(nread := 0, state := Chunk(SizeStart));
    assert Step(cfg, p, CR) == Out(q, [], Go);
    assert Step(cfg, q, LF) == Out(r, [], Go);
    ReadsOne(cfg, p, CR, q, []);
    ReadsOne(cfg, q, LF, r, []);
    ReadsThen(cfg, p, [CR], q, [], [LF], r, []);
    assert [CR] + [LF] == "\r\n";
  }

  /** A chunk is read back as its bytes and leaves the parser waiting for the next size. */
  lemma ChunkReads(cfg: Settings, p: Parser, c: ChunkSent)
    requires p.errno.Ok? && Inv(p) && p.state == Chunk(SizeStart) && ChunkOk(c)
    ensures Reads(cfg, p, ChunkText(c), p.(contentLength := 0), ByteEvents(Body, c.bytes))
  {
    hide Run, Step, HexValue, FieldMatchOk, ValueMatchOk, AllSizeDigits, ExtensionOk;
    var head := c.size + c.extension + "\r\n";
    var r := p.(contentLength := |c.bytes|, nread := 0, state := Chunk(InData));
    var t := r.(contentLength := 0, state := Chunk(DataAlmostDone));
    SizeAndLineRead(cfg, p, c.size, c.extension, |c.bytes|);
    RunBodyEnd(cfg, r, c.bytes);
    assert ByteEvents(Body, c.bytes) + [] == ByteEvents(Body, c.bytes);
    assert Reads(cfg, r, c.bytes, t, ByteEvents(Body, c.bytes));
    ReadsThen(cfg, p, head, r, [], c.bytes, t, ByteEvents(Body, c.bytes));
    DataLineReads(cfg, t);
    ReadsThen(cfg, p, head + c.bytes, t, [] + ByteEvents(Body, c.bytes), "\r\n", p.(contentLength := 0), []);
    assert [] + ByteEvents(Body, c.bytes) + [] == ByteEvents(Body, c.bytes);
  }

  lemma {:induction false} ChunksRead(cfg: Settings, p: Parser, chunks: seq<ChunkSent>)
    requires p.errno.Ok? && Inv(p) && p.state == Chunk(SizeStart)
    requires forall i :: 0 <= i < |chunks| ==> ChunkOk(chunks[i])
    ensures exists n: nat ::
      n <= ULLONG_MAX && Reads(cfg, p, ChunksText(chunks), p.(contentLength := n), ByteEvents(Body, Joined(chunks)))
    decreases |chunks|
  {
    hide Run, Step, ChunkOk, ChunkText, FieldMatchOk, ValueMatchOk;
    if chunks == [] {
      ReadsNone(cfg, p);
      assert Reads(cfg, p, ChunksText(chunks), p.(contentLength := p.contentLength), ByteEvents(Body, Joined(chunks)));
    } else {
      var c := chunks[0];
      var q := p.(contentLength := 0);
      ChunkReads(cfg, p, c);
      ChunksRead(cfg, q, chunks[1..]);
      var n: nat :| n <= ULLONG_MAX &&
        Reads(cfg, q, ChunksText(chunks[1..]), q.(contentLength := n), ByteEvents(Body, Joined(chunks[1..])));
      ReadsThen(cfg, p, ChunkText(c), q, ByteEvents(Body, c.bytes),
                ChunksText(chunks[1..]), q.(contentLength := n), ByteEvents(Body, Joined(chunks[1..])));
      assert ByteEvents(Body, Joined(chunks)) == ByteEvents(Body, c.bytes) + ByteEvents(Body, Joined(chunks[1..]));
      assert q.(contentLength := n) == p.(contentLength := n);
    }
  }

  /** The blank line that closes the trailer. */
  lemma TrailerReads(cfg: Settings, p: Parser)
    requires p.errno.Ok? && AtLine(p.state) && p.nread + 2 <= MAX_HEADER_SIZE && p.flags.trailing
    ensures var o := Finish(cfg, p.(nread := p.nread + 2, state := HeadersAlmostDone));
      Run(cfg, p, "\r\n") == RunResult(o.p, 2, o.ev, EndOf(o))
  {
    hide Run, Finish, Step;
    var q := p.(nread := p.nread + 1, state := HeadersAlmostDone);
    var o := Finish(cfg, p.(nread := p.nread + 2, state := HeadersAlmostDone));
    HeaderStep(cfg, p, CR);
    ReadsOne(cfg, p, CR, q, []);
    TrailerStep(cfg, q);
    RunOne(cfg, q, LF);
    RunAppend(cfg, p, [CR], [LF]);
    assert [CR] + [LF] == "\r\n";
    assert [] + o.ev == o.ev;
  }

  lemma TrailerStep(cfg: Settings, p: Parser)
    requires p.state == HeadersAlmostDone && p.nread < MAX_HEADER_SIZE && p.flags.trailing
    ensures var o := Finish(cfg, p.(nread := p.nread + 1));
      Step(cfg, p, LF) == o && (o.status.Go? || (o.status.StopAfter? && !o.p.errno.CbHeadersComplete?))
  {
    hide ShouldKeepAlive;
  }

  /** A chunked body as sent: its chunks, a size of zero with what stands behind it, trailing headers. */
  datatype ChunkedSent = ChunkedSent(chunks: seq<ChunkSent>, zero: string, extension: string, trailers: seq<HeaderLine>)

  predicate ChunkedOk(c: ChunkedSent) {
    && (forall i :: 0 <= i < |c.chunks| ==> ChunkOk(c.chunks[i])) && SizeOk(c.zero, c.extension, 0)
    && BlockOk(c.trailers) && |BlockText(c.trailers)| + 2 <= MAX_HEADER_SIZE
  }

  function ChunkedText(c: ChunkedSent): string {
    ChunksText(c.chunks) + (c.zero + c.extension + "\r\n") + BlockText(c.trailers) + "\r\n"
  }

  /** The parser behind the last size line. */
  function InTrailer(p: Parser): Parser {
    p.(contentLength := 0, nread := 0, flags := p.flags.(trailing := true), state := Header(FieldStart))
  }

  /** The parser as the completion of a chunked body is announced. */
  function ChunkedOver(p: Parser, trailers: seq<HeaderLine>): Parser
    requires BlockOk(trailers)
  {
    var t := AfterBlock(InTrailer(p), trailers);
    var q := t.(nread := t.nread + 2, state := HeadersAlmostDone);
    q.(state := NewMessage(q))
  }

  /** The last size line and the trailing headers. */
  lemma TrailersRead(cfg: Settings, p: Parser, c: ChunkedSent)
    requires p.errno.Ok? && p.state == Chunk(SizeStart) && p.nread == 0 && p.flags.chunked && ChunkedOk(c)
    ensures var t := AfterBlock(InTrailer(p), c.trailers);
      && Reads(cfg, p, c.zero + c.extension + "\r\n" + BlockText(c.trailers), t, BlockEvents(c.trailers))
      && t.errno.Ok? && AtLine(t.state) && t.nread + 2 <= MAX_HEADER_SIZE && t.flags.trailing
  {
    hide Run, Reads, SizeOk, BlockOk, BlockText, BlockEvents, AfterBlock, BlockEffect;
    var q := InTrailer(p);
    SizeAndLineRead(cfg, p, c.zero, c.extension, 0);
    BlockReads(cfg, q, c.trailers);
    BlockEffectOk(q, c.trailers);
    BlockFlags(Effect(q.flags, q.contentLength), c.trailers);
    ReadsThen(cfg, p, c.zero + c.extension + "\r\n", q, [], BlockText(c.trailers), AfterBlock(q, c.trailers), BlockEvents(c.trailers));
    assert [] + BlockEvents(c.trailers) == BlockEvents(c.trailers);
  }

  /** A chunked body is reported as exactly the bytes of its chunks in order, whatever the chunk
      boundaries and extensions, then its trailing headers; the message completes once, on the final
      line feed. */
  lemma ChunkedFraming(cfg: Settings, p: Parser, c: ChunkedSent)
    requires p.errno.Ok? && Inv(p) && p.state == Chunk(SizeStart) && ChunkedOk(c)
    ensures var q := ChunkedOver(p, c.trailers); var text := ChunkedText(c);
      var told := ByteEvents(Body, Joined(c.chunks)) + BlockEvents(c.trailers) + [Notice(MessageComplete, q)];
      Run(cfg, p, text) ==
        if cfg.onMessageComplete(q) != 0 then RunResult(q.(errno := CbMessageComplete), |text|, told, Stopped)
        else RunResult(q, |text|, told, Live)
  {
    hide Run, Reads, ChunksText, ChunkOk, SizeOk, BlockOk, BlockText, BlockEvents, FieldMatchOk, ValueMatchOk, AfterBlock, Joined,
         ByteEvents, AtLine, NewMessage;
    ChunksRead(cfg, p, c.chunks);
    var body := ByteEvents(Body, Joined(c.chunks));
    var n: nat :| n <= ULLONG_MAX && Reads(cfg, p, ChunksText(c.chunks), p.(contentLength := n), body);
    var q := p.(contentLength := n);
    var last := c.zero + c.extension + "\r\n" + BlockText(c.trailers);
    var t := AfterBlock(InTrailer(p), c.trailers);
    assert InTrailer(q) == InTrailer(p);
    TrailersRead(cfg, q, c);
    ReadsThen(cfg, p, ChunksText(c.chunks), q, body, last, t, BlockEvents(c.trailers));
    TrailerReads(cfg, t);
    ThenRun(cfg, p, ChunksText(c.chunks) + last, t, body + BlockEvents(c.trailers), "\r\n");
    assert ChunkedText(c) == ChunksText(c.chunks) + last + "\r\n";
  }

  lemma ThenRun(cfg: Settings, p: Parser, a: string, q: Parser, e: seq<Event>, b: string)
    requires Reads(cfg, p, a, q, e)
    ensures var r := Run(cfg, q, b); Run(cfg, p, a + b) == RunResult(r.p, |a| + r.n, e + r.ev, r.end)
  {
    hide Run;
    RunAppend(cfg, p, a, b);
  }

  // ---- sizes are always expressible ----

  function HexDigit(d: nat): char
    requires d < 16
  {
    "0123456789abcdef"[d]
  }

  /** The canonical hexadecimal form of a number. */
  function Hex(n: nat): string {
    if n < 16 then [HexDigit(n)] else Hex(n / 16) + [HexDigit(n % 16)]
  }

  function Pow16(k: nat): nat { if k == 0 then 1 else 16 * Pow16(k - 1) }

  lemma HexDigitOk(d: nat)
    requires d < 16
    ensures IsHex(HexDigit(d)) && Unhex(HexDigit(d)) == d
  {
  }

  lemma {:induction false} HexOk(n: nat, k: nat)
    requires n < Pow16(k) && k >= 1
    ensures Hex(n) != [] && AllSizeDigits(Hex(n)) && HexValue(Hex(n)) == n && |Hex(n)| <= k
    decreases k
  {
    HexDigitOk(n % 16);
    var s := Hex(n);
    if n < 16 {
      HexDigitOk(n);
      assert s[..|s| - 1] == [];
    } else {
      HexOk(n / 16, k - 1);
      assert s[..|s| - 1] == Hex(n / 16);
    }
  }

  /** Every non-empty byte string below the length limit can be sent as a chunk. */
  lemma Expressible(bytes: string)
    requires 0 < |bytes| < ULLONG_MAX
    ensures ChunkOk(ChunkSent(Hex(|bytes|), [], bytes)) && SizeOk(Hex(0), [], 0)
  {
    assert Pow16(8) == 0x1_0000_0000 && Pow16(16) == TWO_64 by {
      assert Pow16(4) == 65536;
      assert Pow16(8) == 65536 * Pow16(4);
      assert Pow16(12) == 65536 * Pow16(8);
      assert Pow16(16) == 65536 * Pow16(12);
    }
    HexOk(|bytes|, 16);
    HexOk(0, 1);
  }

  /** In a chunk size a byte above ASCII counts as the digit zero. */
  lemma HighByteIsZero(size: string, c: char)
    requires AllSizeDigits(size) && IsHighByte(c)
    ensures AllSizeDigits(size + [c]) && AllSizeDigits(size + ['0'])
    ensures HexValue(size + [c]) == HexValue(size + ['0']) == 16 * HexValue(size)
    ensures SizeOk([c], [], 0)
  {
    assert (size + [c])[..|size|] == size && (size + ['0'])[..|size|] == size;
    assert HexValue([c][..0]) == 0;
  }
}

/** The data of the streaming HTTP parser: its states, its record, and what it reports.

    Bytes are modelled as `char`; every definition is total, so a character that is not a
    byte simply belongs to no character class. */
module HttpTypes {

  datatype ParserType = Request | Response | Both

  /** The parser states, grouped by the part of the message they read. */
  datatype State =
    | Dead
    | StartReqOrRes | ResOrRespH | StartRes | StartReq | ReqMethod
    | StatusLine(status: StatusState)
    | ReqUrl(url: UrlState)
    | ReqVersion(version: VersionState)
    | Header(header: LineState)
    | HeadersAlmostDone | HeadersDone
    | Chunk(chunk: ChunkState)
    | BodyIdentity | BodyIdentityEof | MessageDone

  datatype StatusState =
    | ResH | ResHT | ResHTT | ResHTTP
    | ResFirstMajor | ResMajor | ResFirstMinor | ResMinor
    | ResFirstCode | ResCode | ResReason | ResAlmostDone

  datatype UrlState =
    | SpacesBefore | Schema | SchemaSlash | SchemaSlashSlash
    | ServerStart | Server | ServerWithAt | Path
    | QueryStart | Query | FragmentStart | Fragment
    | UrlDead

  datatype VersionState =
    | ReqStart | ReqH | ReqHT | ReqHTT | ReqHTTP
    | ReqFirstMajor | ReqMajor | ReqFirstMinor | ReqMinor | ReqAlmostDone

  datatype LineState = FieldStart | InField | ValueStart | InValue | ValueLws | AlmostDone

  datatype ChunkState = SizeStart | Size | Parameters | SizeAlmostDone | InData | DataAlmostDone | DataDone

  /** Progress of the incremental keyword matcher over a header name and its value. */
  datatype HeaderState =
    | General | HC | HCO | HCON
    | MatchingConnection | MatchingProxyConnection | MatchingContentLength
    | MatchingTransferEncoding | MatchingUpgrade
    | Connection | ContentLength | TransferEncoding | Upgrade
    | MatchingChunked | MatchingKeepAlive | MatchingClose
    | Chunked | KeepAlive | Close

  datatype Method =
    | Delete | Get | Head | Post | Put | Connect | Options | Trace | Copy | Lock | MkCol | Move
    | PropFind | PropPatch | Search | Unlock | Report | MkActivity | Checkout | Merge | MSearch
    | Notify | Subscribe | Unsubscribe | Patch | Purge

  datatype Errno =
    | Ok
    | CbMessageBegin | CbStatusComplete | CbHeadersComplete | CbMessageComplete
    | InvalidEofState | HeaderOverflow | ClosedConnection | InvalidVersion | InvalidStatus
    | InvalidMethod | InvalidUrl | LfExpected | InvalidHeaderToken | InvalidContentLength
    | InvalidChunkSize | InvalidConstant | Strict

  datatype Flags = Flags(chunked: bool, keepAlive: bool, close: bool,
                         trailing: bool, upgrade: bool, skipBody: bool)

  const NO_FLAGS := Flags(false, false, false, false, false, false)

  /** 2^64 - 1, which the parser also uses to mean "no Content-Length seen". */
  const ULLONG_MAX: nat := 0xFFFF_FFFF_FFFF_FFFF
  const TWO_64: nat := 0x1_0000_0000_0000_0000
  const MAX_HEADER_SIZE: nat := 80 * 1024

  datatype Parser = Parser(
    kind: ParserType, flags: Flags, state: State, hstate: HeaderState, index: nat,
    nread: nat, contentLength: nat,
    major: nat, minor: nat, status: nat, verb: Method, errno: Errno, upgrade: bool)

  /** The four kinds of bytes handed to the application in slices. */
  datatype Kind = Url | Field | Value | Body

  datatype Note = MessageBegin | StatusComplete | HeadersComplete | MessageComplete

  /** One callback: a slice of data, or a notification together with the parser it can inspect. */
  datatype Event = Data(kind: Kind, bytes: string) | Notice(note: Note, at: Parser)

  /** Return codes of the application's notification callbacks; the data callbacks return 0,
      as all of this library's do. */
  datatype Settings = Settings(
    onMessageBegin: Parser -> int, onStatusComplete: Parser -> int,
    onHeadersComplete: Parser -> int, onMessageComplete: Parser -> int)

  /** What handling one byte leads to: go on, leave the call having consumed the byte, leave it
      without consuming the byte, or a failed internal assertion. */
  datatype Status = Go | StopAfter | StopAt | Abort

  datatype Out = Out(p: Parser, ev: seq<Event>, status: Status)

  /** The freshly initialised parser. */
  function Init(t: ParserType): Parser {
    Parser(t, NO_FLAGS,
           match t case Request => StartReq case Response => StartRes case Both => StartReqOrRes,
           General, 0, 0, 0, 0, 0, 0, Delete, Ok, false)
  }

  /** States whose bytes count against the header-size limit: all but those inside a body. */
  predicate ParsingHeader(s: State) {
    match s
    case Chunk(c) => !(c.InData? || c.DataAlmostDone? || c.DataDone?)
    case BodyIdentity => false
    case BodyIdentityEof => false
    case MessageDone => false
    case _ => true
  }

  /** Url states in which a space or a line end may close the url. */
  predicate UrlMayEnd(u: UrlState) {
    u.Server? || u.ServerWithAt? || u.Path? || u.QueryStart? || u.Query? || u.FragmentStart? || u.Fragment?
  }

  function MethodStr(m: Method): string {
    match m
    case Delete => "DELETE" case Get => "GET" case Head => "HEAD" case Post => "POST"
    case Put => "PUT" case Connect => "CONNECT" case Options => "OPTIONS" case Trace => "TRACE"
    case Copy => "COPY" case Lock => "LOCK" case MkCol => "MKCOL" case Move => "MOVE"
    case PropFind => "PROPFIND" case PropPatch => "PROPPATCH" case Search => "SEARCH"
    case Unlock => "UNLOCK" case Report => "REPORT" case MkActivity => "MKACTIVITY"
    case Checkout => "CHECKOUT" case Merge => "MERGE" case MSearch => "M-SEARCH"
    case Notify => "NOTIFY" case Subscribe => "SUBSCRIBE" case Unsubscribe => "UNSUBSCRIBE"
    case Patch => "PATCH" case Purge => "PURGE"
  }
}

/** The character classes of strict mode. */
module HttpChars {

  const CR: char := '\r'
  const LF: char := '\n'

  predicate IsNum(c: char) { '0' <= c <= '9' }
  predicate IsAlpha(c: char) { 'a' <= c <= 'z' || 'A' <= c <= 'Z' }
  predicate IsAlphaNum(c: char) { IsAlpha(c) || IsNum(c) }
  predicate IsMark(c: char) { c in "-_.!~*'()" }
  predicate IsUserinfoChar(c: char) { IsAlphaNum(c) || IsMark(c) || c in "%;:&=+$," }
  predicate IsHostChar(c: char) { IsAlphaNum(c) || c == '.' || c == '-' }
  predicate IsHex(c: char) { IsNum(c) || 'a' <= c <= 'f' || 'A' <= c <= 'F' }

  /** Every printable ASCII character except space, '#', '?' and DEL. */
  predicate IsUrlChar(c: char) { '!' <= c <= '~' && c != '#' && c != '?' }

  function Digit(c: char): (d: nat)
    requires IsNum(c)
    ensures d < 10
  {
    c as int - '0' as int
  }

  /** The bytes above ASCII, for which the table of hexadecimal digits has no entry. */
  predicate IsHighByte(c: char) { 128 <= c as int < 256 }

  /** What the parser takes for a digit of a chunk size. */
  predicate IsSizeDigit(c: char) { IsHex(c) || IsHighByte(c) }

  /** The table of hexadecimal digits: the value of a digit, -1 for other ASCII, and zero where it has
      no entry. */
  function Unhex(c: char): (v: int)
    ensures -1 <= v < 16
    ensures v == -1 <==> !IsSizeDigit(c)
  {
    if IsNum(c) then c as int - '0' as int
    else if 'a' <= c <= 'f' then c as int - 'a' as int + 10
    else if 'A' <= c <= 'F' then c as int - 'A' as int + 10
    else if IsHighByte(c) then 0
    else -1
  }

  /** ASCII lower case. */
  function Lowered(c: char): char {
    if 'A' <= c <= 'Z' then (c as int + 32) as char else c
  }

  predicate IsToken(c: char) {
    IsAlphaNum(c) || c in "!#$%&'*+-.^_`|~"
  }

  /** The token table: the lower-case form of a token character, NUL for anything else. */
  function Token(c: char): char {
    if IsToken(c) then Lowered(c) else '\0'
  }

  /** The macro that sets bit 5: it lowers letters, but also moves other characters. */
  function SetBit5(c: char): char {
    if c as int < 256 && (c as int / 32) % 2 == 0 then (c as int + 32) as char else c
  }

  predicate IsBlank(c: char) { c == ' ' || c == '\t' }
}

/** Strings of digits and the numbers they denote. */
module Numbers {
  import opened HttpChars

  predicate AllDigits(s: string) { forall i :: 0 <= i < |s| ==> IsNum(s[i]) }
  predicate AllSizeDigits(s: string) { forall i :: 0 <= i < |s| ==> IsSizeDigit(s[i]) }

  /** The number a string of decimal digits denotes. */
  function DecValue(s: string): nat
    requires AllDigits(s)
  {
    if s == [] then 0 else 10 * DecValue(s[..|s| - 1]) + Digit(s[|s| - 1])
  }

  /** The number a string of digits of a chunk size denotes. */
  function HexValue(s: string): nat
    requires AllSizeDigits(s)
  {
    if s == [] then 0 else 16 * HexValue(s[..|s| - 1]) + Unhex(s[|s| - 1])
  }
}

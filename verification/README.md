# libten in Dafny

A Dafny model of the parts of libten (a C++ library of cooperative tasks, with an HTTP/1.x parser in C) whose
behaviour is hardest to get right, and proofs about it. `dafny verify dfyconfig.toml` checks everything.

**The streaming HTTP parser and its message layer.** `HttpTypes.dfy` and `HttpStep.dfy` say what the parser does
with one byte, one function per group of states. `HttpInvariant.dfy` has the invariant of all reachable states.
`HttpTrace.dfy` says when two sequences of callbacks deliver the same bytes and notifications. `HttpExecute.dfy` is
`http_parser_execute` itself, a class whose method loops over the input with its mark pointers and hands over body
bytes in bulk; it is proved to report what the byte-at-a-time reading reports, less exactly the slice it loses on a
parse error. `HttpPieces.dfy` is about calls in a row. `HttpMessage.dfy` is the request or response that the
callbacks collect. `HttpKeywords.dfy`, `HttpHeaders.dfy`, `HttpFraming.dfy`, `HttpBodies.dfy` and `HttpRoundTrip.dfy`
build up to printing a request and reading it back; `HttpResponse.dfy` does the same for responses. `HttpRfc.dfy`
compares the framing of responses with RFC 2616, `HttpKeepAlive.dfy` says when another message may follow,
`HttpMethods.dfy` which words are methods, `HttpLimit.dfy` how long headers may be, `HttpLines.dfy` what is refused
and what is let pass around line ends and spaces, and `HttpEof.dfy` where input may end.

**The url parser.** `UrlGrammar.dfy` has the characters of urls and header names by their code points and the request
targets that are accepted. `UrlParser.dfy` has both stages as loops, `UrlFields.dfy` says what the fields of a parsed url
are, `UrlRoundTrip.dfy` composes urls and parses them.

**Cooperative tasks**, as interleaving step systems: `Scheduler.dfy` (ready flags, queues and cross-thread wake-ups),
`Qutex.dfy` (the hand-over lock), `Rendez.dfy` (the condition queue), `Channel.dfy`. The lock, the condition queue
and the channel are also classes whose methods are the critical sections and are tied to the steps.

**Small cores**: `AsciiCase.dfy`, `HeaderList.dfy`, `HashRing.dfy`, `AlarmClock.dfy`, `Buffer.dfy`.

Modelling decisions:

- Bytes of HTTP text are `char`. A character that is not a byte belongs to no character class.
- Strict mode is fixed and the header limit is 80 * 1024, the defaults of `include/ten/http/http_parser.h`.
- Lengths of bodies and chunks are 64-bit with the wrap-around written out; url offsets and lengths are 16-bit,
  buffer bookkeeping 32-bit.
- Callbacks that can change the parser's course are parameters (`Settings`): message begin, headers complete and
  message complete. Data callbacks return 0, as all of the library's own do.
- A run of a step system is any sequence of actions; an action that is not possible leaves the state as it is.
- A parked task resumes only through its condition queue or through an interrupt: `rendez::sleep` does not take it
  off the queue on a normal return.
- Allocation failure, try-lock contention, hash functions and what lies in memory behind a url are parameters.

Where code and promise disagree, the model follows the code, and the exact condition is proved:

- The library prints `HTTP/0.9` request lines that its parser refuses (`Version09Refused`, `RoundTripIff`).
- Url fields have 16-bit offsets and lengths, and longer urls are not refused (`SixteenBitLimit`, `FitsExactly`).
- On a parse error the url or header bytes collected since the call began are not handed over, so the report depends
  on where the input was cut (`SplitInvariance`, `SliceLost`).
- A response whose status code means that it has no body is nevertheless given the body its headers announce, and an
  upgraded one is not given the body they announce (`FramedAsRfc`, `BodylessMisread`, `NotModifiedWaits`).
- A response with a transfer coding that is not just `chunked`, such as `gzip, chunked`, is framed by its length or by
  the end of the stream (`FramedAsRfc`, `GzippedMisread`).
- Of a header folded over several lines only the first line can set a flag, and each continuation starts the number of
  a Content-Length over (`BlockTells`, `LineEffect`, `FoldStartsOver`).
- Bytes above 127 count as the digit zero in a chunk size: the table of digits has the initialiser's zeroes there
  (`HighByteIsZero`).
- A Content-Length of 2^64-1 and above is not always refused: the overflow test misses sums that wrap around past the old
  value (`LengthExact`, `LengthWraps`).
- The port number is read by `strtoul`, which does not stop at the end of the buffer: digits behind it change the port
  or make the url refused (`TailIff`, `PortMisread`, `PortRefused`).
- A fragment directly behind the authority is refused, and a number sign at its start is dropped (`RoundTrip` in
  `UrlRoundTrip.dfy`, `BareFragmentRefused`).
- Of the urls of RFC 3986 those with a digit, plus, hyphen or full stop in the schema, or other characters than letters,
  digits, full stops and hyphens in a host name, are refused (`RfcSpelled`).
- With capacity 1 a sender whose item was taken waits on while another sender's item is in the channel, and one whose
  item was cleared returns although nobody received it (`SynchronousSend`, `TakenButParked`, `ClearedNotReceived`).
- `hash_ring` add followed by remove restores the ring only if no point was taken (`AddThenRemove`, `TakenPointLost`).
- `buffer::reserve` computes the new capacity in 32 bits (`Buffer.Reserve`, `ReserveWraps`).

## Model

| member | source | states |
|---|---|---|
| HttpInvariant.StepSound | src/http_parser.c:632-1832 | from every state satisfying the invariant, one byte keeps it and fails no assertion: chunk sizes start with one byte counted and the chunked flag set, lengths in bodies are neither 0 nor 2^64-1, and no forbidden header state is met while reading a name or value |
| HttpInvariant.RunSound | src/http_parser.c:572-1862 | the same over any input; a call that goes on has consumed everything, and one that ended early without an errno ended at a completed message of an upgraded connection |
| HttpInvariant.RunGoesOn | src/http_parser.c:572-1862 | a call goes on if and only if the caller sees no errno, every byte consumed and no upgrade |
| HttpInvariant.FieldMatchKeeps | src/http_parser.c:1241-1347 | while a header name is read the matcher is in a name state with its index within the keyword |
| HttpInvariant.ValueMatchKeeps | src/http_parser.c:1455-1531 | while a header value is read the matcher has a next state and its index stays within the keyword |
| HttpInvariant.ChunkSound | src/http_parser.c:1709-1825 | chunk sizes, data and line ends keep the invariant, overflow test included |
| HttpTrace.SameAppend | src/http_parser.c:84-110 | delivering the same bytes is a congruence: traces that agree may be extended by traces that agree |
| HttpTrace.SameDelivers | src/http_parser.c:84-110 | traces that agree deliver the same bytes of each kind and the same notifications |
| HttpExecute.RunAppend | src/http_parser.c:572-1862 | reading two stretches one after the other is reading their concatenation, for every state and input |
| HttpExecute.RunBody | src/http_parser.c:1661-1702 | a stretch of body that stays below the announced length is all body and changes only the remaining length |
| HttpExecute.RunBodyEnd | src/http_parser.c:1661-1707 | a body read to its end reports its bytes and then what its end triggers |
| HttpExecute.DispatchShape | src/http_parser.c:632-1832 | a byte goes on collecting, ends a collected run with its callback, or starts one, never two at a time |
| HttpExecute.OneMark | src/http_parser.c:1844-1847 | at most one mark pointer is set at any time |
| HttpExecute.NotedOk | src/http_parser.c:612-630 | the mark pointers and the slices they hand over deliver the same bytes as reporting every byte |
| HttpExecute.BodyEnds | src/http_parser.c:1661-1707 | handing over a body slice in bulk ends where byte-by-byte reading ends, in the same state with the same report |
| HttpExecute.HttpParser.constructor | src/http_parser.c:1916-1925 | a fresh parser satisfies the invariant |
| HttpExecute.HttpParser.TakeByte | src/http_parser.c:632-1832 | one byte outside bodies: tracks the byte-at-a-time reading, or stops exactly as it does |
| HttpExecute.HttpParser.TakeBody | src/http_parser.c:1661-1702 | as many body bytes as there are: tracks the byte-at-a-time reading |
| HttpExecute.HandOver | src/http_parser.c:1844-1854 | at the end of the input every slice still marked, of which there is at most one, is handed over |
| HttpExecute.HttpParser.Execute | src/http_parser.c:572-1862 | a call, end of input and errored parsers included, ends in the state and consumes the bytes that byte-at-a-time reading does and delivers exactly what that reports, except that on a parse error the one slice held at the failing byte is not delivered |
| HttpPieces.SplitInvariance | src/http_parser.c:572-1862 | calls in any non-empty pieces, for any parser kind, state and callbacks, end in the state, with the count and for the reason that one call on all the bytes does, and report the same unless a byte is refused; then they report the same if and only if no piece ends inside the run of bytes held at that byte |
| HttpPieces.AssertionsHold | src/http_parser.c:572-1862 | a parser in any valid state, called with any pieces, empty ones (end of input) included, fails no internal assertion |
| HttpPieces.ExecutePieces | src/http_parser.c:572-1862 | calling the parser piece by piece until it stops, as a caller can see it, is what the split theorem is about |
| HttpMessage.CollectSame | src/http_message.cc:228-267 | the collected message depends only on the bytes and notifications delivered, not on the slices |
| HttpMessage.NeverCrashes | src/http_message.cc:236-241 | the assertion of the value callback holds for everything a client can send |
| HttpRoundTrip.CollectLine | src/http_message.cc:228-242 | a header line is collected as its name and its value, the parts of a folded value joined without the blanks that start its continuations |
| HttpMessage.HttpBase.Request | src/http_message.cc:291-295 | a request starts out cleared, with the callbacks of requests |
| HttpMessage.HttpBase.Response | src/http_message.cc:342-347 | a response starts out cleared, with the callbacks of responses, which skip the body when it answers HEAD |
| HttpMessage.HttpBase.Parse | src/http_message.cc:297-315 | one read of a request or response: parser state and length are those of the call, and the message is what its report collects to; an error is exactly an incomplete message with bytes left over |
| HttpMessage.HttpBase.ParsePieces | src/http_message.cc:297-315 | reading in any non-empty pieces collects what their reports collect to, and without a refused byte the message that one read of everything collects |
| HttpKeywords.NameMatchSpec | src/http_parser.c:1205-1345 | matching a header name byte by byte equals classifying the whole lower-cased name |
| HttpKeywords.NameKind | src/http_parser.c:1205-1345 | a name is taken for one of the special headers if and only if it equals its keyword ignoring case |
| HttpKeywords.ValueMatchSpec | src/http_parser.c:1393-1531 | a value is recognised if and only if it is the keyword ignoring case followed by spaces only |
| HttpHeaders.LineReads | src/http_parser.c:1184-1564 | a header line, with any blanks after its colon, either line end and any continuation lines, is read to its end, reporting exactly its name and the parts of its value |
| HttpHeaders.LineEffect | src/http_parser.c:1393-1564 | what a header changes in flags and length, said about whole strings: the value on its first line, and for a length the last of its lines before an empty one |
| HttpHeaders.FoldStartsOver | src/http_parser.c:1410-1417 | one such header: a length of 1 that goes on with 2 is collected as 12 and counts as 2 |
| HttpHeaders.BlockReads | src/http_parser.c:1184-1564 | any block of such lines, each with its own blanks, line ends and continuations, is read to its end and reported line by line |
| HttpHeaders.FoldsRead | src/http_parser.c:1557-1567 | continuation lines, each starting with blanks, are reported as more of the value, without those blanks |
| HttpHeaders.BlockEffectOk | src/http_parser.c:1393-1553 | the flags and length after such a block are those of its lines taken as whole strings, and nothing else changes |
| HttpHeaders.BlockTells | src/http_parser.c:1373-1564 | running the parser over any such block sets each of chunked, keep-alive, close and upgrade if and only if some header says so as a whole string on its first line, and the length to that of the last Content-Length header |
| HttpHeaders.WriteHeaders | src/http_message.cc:198-203 | the loop writes each header on its line and then a blank line |
| HttpFraming.AddDigitExact | src/http_parser.c:1475-1483 | below 2^64-1 the 64-bit sum is exact and passes the overflow test, for decimal and hexadecimal |
| HttpFraming.LengthOfDigits | src/http_parser.c:1464-1487 | a Content-Length of digits denotes its decimal value, for all values below 2^64-1 |
| HttpFraming.LengthExact | src/http_parser.c:1464-1487 | digits are taken for their decimal value if and only if it is below 2^64-1 |
| HttpFraming.LengthRefuses | src/http_parser.c:1464-1487 | nothing but digits, and spaces behind the first, is taken as a Content-Length |
| HttpFraming.LengthWraps | src/http_parser.c:1475-1483 | one number above that is taken for another: 3 followed by 19 zeros, less 2^64 |
| HttpFraming.IdentityFraming | src/http_parser.c:1661-1707 | with Content-Length n the next n bytes are body and no others; completion fires on the n-th and not before; the rest is the next message |
| HttpFraming.ChunkReads | src/http_parser.c:1709-1817 | a chunk of any size, with any extension behind its size, is reported as exactly its bytes and leads back to the next size |
| HttpFraming.ChunkedFraming | src/http_parser.c:1570-1825 | a chunked body (RFC 2616 section 3.6.1) with any extensions and trailing headers is reported as its chunks joined and then its trailers; completion fires once, on the final line feed |
| HttpFraming.Expressible | src/http_parser.c:1709-1760 | every non-empty byte string shorter than 2^64-1 can be sent as a chunk with its canonical hexadecimal size |
| HttpFraming.HighByteIsZero | src/http_parser.c:180-189 | in a chunk size a byte above 127 counts as the digit zero |
| HttpBodies.BlankLineReads | src/http_parser.c:1570-1659 | the blank line announces the end of the headers and then completes a message without a body, or leaves the parser waiting in chunks, for the announced length or for the end of the stream, by a table over upgrade, the application's answer, chunked, length, kind and status |
| HttpBodies.EofFraming | src/http_parser.c:1698-1702 | a body without announced length is every byte up to the end of input, which completes it |
| HttpBodies.MessageFinishes | src/http_parser.c:1570-1707 | for requests and responses alike: after the blank line the body, and headers trailing it, are delivered as framed with every byte consumed, and the message completes on the last byte or, without a length, at end of input |
| HttpRoundTrip.CandidateStep | src/http_parser.c:913-994 | for every method of the table the matcher moves from candidate to candidate as its name is read |
| HttpRoundTrip.MethodReads | src/http_parser.c:872-994 | the name of every method is read as that method |
| HttpMethods.MethodIff | src/http_parser.c:872-994 | the first word of a request is read as the method of that name, given by a list of the 26 names, and refused as an invalid method if it is none of them |
| UrlGrammar.TokenTable | src/http_parser.c:138-178 | header names are made of exactly the token characters of RFC 2616 section 2.2, any CHAR but controls and separators, and taken in lower case |
| UrlGrammar.UrlTable | src/http_parser.c:200-232 | for every state and every code point, where the url automaton goes |
| UrlGrammar.TargetAccepted | src/http_parser.c:424-570 | the url automaton may end behind a string if and only if it is, by code points, a path or asterisk with any visible characters behind it, or letters, colon and two slashes before an authority without two at signs in a row and a path or query of visible characters, or just the latter for CONNECT |
| UrlGrammar.RfcTarget | src/http_parser.c:200-232 | any absolute path, query and fragment of RFC 3986 sections 3.3 to 3.5, percent signs included, make such a target |
| HttpRoundTrip.UrlReads | src/http_parser.c:996-1067 | the request target is reported as it stands while the url automaton accepts it |
| HttpRoundTrip.TargetIff | src/http_parser.c:996-1067 | what stands between the method and the next space is read whole and reported if it is such a target, and refused as an invalid url if it is not |
| HttpRoundTrip.TargetEndsLine | src/http_parser.c:1049-1058 | a target that ends its line makes a request of HTTP/0.9 without a version |
| HttpRoundTrip.RequestLineReads | src/http_parser.c:872-1182 | a printed request line is read as the method, target and version it was printed from |
| HttpRoundTrip.Print | src/http_message.cc:317-322 | writing the request and its headers one by one gives the text that the round trip is about |
| HttpRoundTrip.ParsesBack | src/http_message.cc:228-315 | a request with any header lines, blanks, line ends and continuations of their own, is collected as its method, target, version, names and values, body and trailing headers, complete, with every byte consumed |
| HttpRoundTrip.RoundTrip | src/http_message.cc:297-322 | printing any sendable request and parsing it, body included, gives the same method, target, version, headers and body, complete, with every byte consumed |
| HttpRoundTrip.Version09Refused | src/http_parser.c:1103-1107 | a request line saying HTTP/0.9 is always refused, at the zero |
| HttpRoundTrip.RoundTripIff | src/http_message.cc:73-81 | a sendable request survives the round trip if and only if its version is not 0.9 |
| HttpRoundTrip.ReadBack | src/http_message.cc:297-315 | the round trip through parser and request objects, the text fed in any non-empty pieces |
| HttpKeepAlive.NextMessage | src/http_parser.c:1887-1905 | behind a request or status line: once headers, body and trailers are read and the application lets the parser go on, it expects the next message if and only if no header or trailer says close in HTTP/1.1, or one says keep-alive before it, and the message had an end of its own |
| HttpKeepAlive.NextRequest | src/http_parser.c:394-394 | so bytes behind a request are read as the next one or refused, as closed unless trailers used up the header limit; after an upgrade they are left alone |
| HttpLimit.HeaderLimit | src/http_parser.c:635-642 | whatever is sent, at most 80 * 1024 bytes are read before the headers end, and a byte before that is refused as too many if and only if so many came before it |
| HttpLines.CrNeedsLf | src/http_parser.c:867-1822 | everywhere a carriage return ends a line, only a line feed may follow it, and chunk data has to be followed by a carriage return |
| HttpLines.NameRefuses | src/http_parser.c:1201-1369 | a character that is neither a token character by code point nor a colon or line end refuses a header name, and a colon an empty one |
| HttpLines.SizeRefuses | src/http_parser.c:1725-1746 | in a chunk size, what is no digit ends it if it is a carriage return, a semicolon or a space, and else refuses it |
| HttpLines.SpacesSkipped | src/http_parser.c:806-1082 | before a target, a version and a status code any number of spaces is skipped |
| HttpLines.SettlesOn | src/http_parser.c:657-692 | a parser for either kind becomes the one for responses if the message starts with HT and else the one for requests |
| HttpRoundTrip.SliceLost | src/http_parser.c:1856-1861 | for every method, url so far and byte that the url automaton refuses: in one call the url is not reported, cut before that byte it is |
| HttpRoundTrip.SliceLostOnce | src/http_parser.c:1856-1861 | one such input |
| HttpResponse.CodeReads | src/http_parser.c:806-852 | a status code of up to three digits is read as the number it was printed from |
| HttpResponse.StatusLineReads | src/http_parser.c:694-870 | a printed status line is read as the version, HTTP/0.9 included, and the code it was printed from |
| HttpResponse.StatusLineIff | src/http_parser.c:821-852 | it is read if and only if the code has at most three digits |
| HttpRfc.FramedAsRfc | src/http_parser.c:1618-1659 | for every status code and header block to whose lengths the grammar gives a meaning: read to the blank line the response is over, or the parser waits for its body, as rules 1, 2, 3 and 5 of RFC 2616 section 4.4 say, taken from the header lines themselves, if and only if it answers HEAD; or it is an upgrade with a code without body or with length 0 and no transfer coding; or it has such a code and neither exactly chunked nor a length above 0; or its transfer coding is exactly chunked; or it has none, and its length, if any, is below 2^64-1 and stands on its first line |
| HttpRfc.GzippedMisread | src/http_parser.c:1401-1408 | responses that do not meet it: with the coding gzip, chunked the parser waits for the 5 bytes of a Content-Length, or without one for the end of the stream |
| HttpRfc.BodylessMisread | src/http_parser.c:1618-1659 | nor does a code without body that comes with a length n: the parser delivers the next n bytes as its body |
| HttpRfc.NotModifiedWaits | src/http_parser.c:1618-1659 | one such response: 304 with a Content-Length of 5 leaves the parser waiting for 5 bytes, unless it answers HEAD |
| HttpResponse.Print | src/http_message.cc:376-381 | writing the response and its headers one by one gives the text that the round trip is about |
| HttpResponse.ResponseRoundTrip | src/http_message.cc:349-381 | a response with any header lines, its body and trailing headers, framed as the parser frames it, are consumed to the last byte, reporting version, code, headers, body and trailers in order, and completing on the last byte or, without a length, at end of input |
| HttpResponse.ReadBack | src/http_message.cc:326-365 | the round trip through parser and response objects, the text fed in any non-empty pieces and followed by the end of input if needed: the response collected has the version, code, headers, body and trailers sent |
| HttpEof.EndOfInput | src/http_parser.c:590-609 | after anything read in any pieces, end of input is fine if and only if nothing but line ends came since the start or since a message completed; it completes a message if and only if headers were read whose body has no end of its own; anywhere else it is an error |
| UrlSlices.ExactSlices | src/http_parser.c:2131-2144 | where characters of a field stand together, its first position and its count describe it as a slice |
| UrlParser.UrlContiguous | src/http_parser.c:425-570 | for every url the characters of a field stand together |
| UrlParser.HostContiguous | src/http_parser.c:1939-2001 | for every host part the characters of a field stand together |
| UrlParser.Split | src/http_parser.c:2077-2144 | the first loop records first position and count of every field in 16 bits, whatever the length, and fails exactly when the automaton dies |
| UrlParser.ParseHost | src/http_parser.c:2004-2074 | the second loop puts userinfo, host and port in place of the host part, and fails exactly when the host automaton may not end there |
| UrlParser.ReadNumber | src/http_parser.c:2160-2163 | the number that all digits ahead denote |
| UrlParser.ParseUrl | src/http_parser.c:2077-2173 | both loops, the check on CONNECT and the limit on ports, against the specification that the rows below are about |
| UrlFields.FieldsAreSlices | src/http_parser.c:2077-2173 | every field of a url that parses is a non-empty slice within it holding exactly the characters of that field |
| UrlFields.OthersAreDelimiters | src/http_parser.c:2104-2111 | a character in no field is one of : / ? # @ [ ] |
| UrlFields.FieldsInOrder | src/http_parser.c:2077-2173 | fields do not overlap and come in the order schema, userinfo, host, port, path, query, fragment |
| UrlFields.SixteenBitLimit | src/http_parser.c:2139-2140 | the fields describe every url of n characters that parses if and only if n is below 2^16 |
| UrlFields.SlashesParse | src/http_parser.c:2134-2144 | the inputs that show it: a longer url of slashes parses as a path of truncated length |
| UrlFields.WideAreSlices | src/http_parser.c:2077-2173 | in exact numbers, whatever its length, the fields of a url are slices holding exactly the characters of each |
| UrlFields.FitsExactly | src/http_parser.c:2131-2144 | url by url: the fields, or the refusal, are what exact numbers would give if and only if every offset and count of either stage is below 2^16, or the url is refused either way |
| UrlFields.PortIsNumber | src/http_parser.c:2160-2170 | the port is the number of its digits, plus any digits that follow in memory when it ends the buffer |
| UrlFields.TailIff | src/http_parser.c:2160-2170 | what follows in memory changes neither the result nor whether the url is refused if and only if the url does not parse by itself, has no port, has something behind it, is not followed by a digit, or both its port and the number that follows are zero |
| UrlRoundTrip.HostTable | src/http_parser.c:1938-2001 | for every state and every code point, where the host automaton goes |
| UrlRoundTrip.RfcSpelled | src/http_parser.c:424-570 | of parts with the characters of RFC 3986 section 3, the parser takes exactly those whose schema is of letters, whose host is an IPv6 address or of letters, digits, full stops and hyphens, and whose port is below 2^16 |
| UrlRoundTrip.RoundTrip | src/http_parser.c:2077-2173 | composing a url from parts of the characters allowed by code point, absolute, of origin form or for CONNECT, and parsing it gives back exactly the parts that are there and the port's number if and only if a fragment has a path or query before it and no number sign at its start, a CONNECT target has just host and port, and no digits that follow in memory read on as part of the port |
| UrlRoundTrip.BareFragmentRefused | src/http_parser.c:482-507 | without path and query a fragment makes the url unparseable |
| UrlRoundTrip.HashFragmentLost | src/http_parser.c:536-548 | a fragment that starts with a number sign is not given back |
| UrlRoundTrip.PortReadsOn | src/http_parser.c:2160-2170 | when the port ends the url, the number read is that of its digits and all that follow, and the url is refused if that is above 65535 |
| UrlRoundTrip.PortMisread | src/http_parser.c:2160-2170 | one input: port 8 followed by a zero in memory is read as 80 |
| UrlRoundTrip.PortRefused | src/http_parser.c:2160-2170 | another: port 8080 followed by a nine is refused |
| Scheduler.StepKeeps | src/scheduler.cc:69-210 | every atomic step of either side keeps flags and queues in agreement, and keeps a notification under way for what is queued |
| Scheduler.RunKeeps | src/scheduler.cc:69-232 | the same over every interleaving |
| Scheduler.ReadyProtocol | src/scheduler.cc:130-210 | in every run a live task is queued, or about to be, exactly once if its flag is set and not at all otherwise, apart from the moment between pop and clear; a finished one never again; the flag checked before running is set; a flagged task that leaves has an entry to erase |
| Scheduler.NoLostWakeup | src/scheduler.cc:90-106 | in every run, while the scheduler blocks, in either waiting mode, a ready task is still to be queued by whoever flagged it, or is queued with a notification under way or delivered |
| Scheduler.WaitEnds | src/scheduler.cc:224-232 | what is under way then is enough to end the wait, with no timeout and no further wake-up |
| Scheduler.CheckDirtyQueue | src/scheduler.cc:69-75 | the loop, left to itself, is a run of the protocol that empties the dirty queue; what was queued last runs first |
| Scheduler.ReadiedAt | src/scheduler.cc:184-198 | ready by a task of this scheduler puts a task behind all ready ones, or before them if it is to go to the front, whatever other threads do meanwhile |
| Scheduler.IoReadiedAt | src/scheduler.cc:200-205 | an alarm or event puts its task behind all ready ones |
| Scheduler.StopReadiedAt | src/scheduler.cc:63-67 | so does a shutdown |
| Scheduler.OtherReadiedAt | src/scheduler.cc:186-189 | ready by another thread puts a task at the end of the dirty queue and has somebody notify |
| Scheduler.ReadyCounts | src/scheduler.cc:184-198 | afterwards a live task has exactly one queue entry, unless it is just being taken |
| Scheduler.RunsInOrder | src/scheduler.cc:108-149 | over every interleaving, of two tasks in the ready queue the one ahead is taken first, unless it finishes |
| Scheduler.BackRunsLast | src/task.cc:168-175 | a task that yields, or is readied at the back, runs after every task that was ready then, and one readied at the front before them |
| Scheduler.NextRuns | src/scheduler.cc:108-149 | schedule runs the last task other threads queued, or else the head of the ready queue, and clears its flag |
| Scheduler.NothingWaits | src/scheduler.cc:90-129 | with nothing ready it waits, in epoll if there is I/O and else on the condition variable |
| Scheduler.WaitsWhere | src/scheduler.cc:94-104 | in every run it waits in epoll only if a task asked for I/O before, and on the condition variable only if none did |
| Scheduler.WokenRuns | src/scheduler.cc:127-134 | after a wait it runs the head of the ready queue |
| Scheduler.AttachLives | src/scheduler.cc:151-155 | an attached task is alive and in no queue |
| Scheduler.ExitLeaves | src/scheduler.cc:157-182 | a task that exits is gone at once if nobody made it ready; else it has exactly one entry to look for |
| Scheduler.EraseLeaves | src/scheduler.cc:166-173 | an entry in the ready queue is erased and the task is gone |
| Scheduler.HuntFinds | src/scheduler.cc:167-173 | an entry in the dirty queue is found by moving over what is ahead of it, which stays ready in order |
| Qutex.Qutex.constructor | src/qutex.cc:6-17 | a new lock is free and nobody waits |
| Qutex.Qutex.BeginLock | src/qutex.cc:6-20 | the first critical section of lock is the step of the system |
| Qutex.Qutex.TryLock | src/qutex.cc:47-58 | succeeds exactly when the internal mutex is to be had and the lock is free, and never waits |
| Qutex.Qutex.UnlockOrGiveUp | src/qutex.cc:60-83 | the owner hands over to the longest waiter and wakes it; anyone else only leaves the line |
| Qutex.RunKeeps | src/qutex.cc:6-88 | ownership, line and tickets stay consistent over every run of lock, try_lock, unlock, spurious resumes and interrupts |
| Qutex.MutualExclusion | src/qutex.cc:6-88 | in every run at most one task is between lock and unlock, a free lock has no waiters, the owner does not wait, waiters are distinct, and an owner yet to resume has been made ready |
| Qutex.GrantsInOrder | src/qutex.cc:6-83 | in every run tasks are handed the lock in the order in which their calls of lock joined the line, all three read from the calls: a task that joined earlier and was not thrown out is handed it earlier |
| Qutex.AcquireOutcome | src/qutex.cc:10-20 | in every run lock takes a free lock at once, and else puts the task behind all waiters |
| Qutex.TryOutcome | src/qutex.cc:47-58 | in every run try_lock takes a free lock if the internal mutex is to be had, and else changes nothing |
| Qutex.ReleaseOutcome | src/qutex.cc:60-73 | in every run unlock by the holder makes the longest waiter owner and ready, or frees the lock |
| Qutex.InterruptPassesOn | src/qutex.cc:39-83 | an interrupted waiter that already got the lock passes it on and wakes the next; one that did not leaves everybody else in place |
| Rendez.WokeOneCovers | src/rendez.cc:53-65 | waking one task per thing made available keeps at least as many awake as things, while anyone waits |
| Rendez.ResumedCovers | src/rendez.cc:22-28 | a woken task that uses one thing keeps the rest covered |
| Rendez.InterruptedCovers | src/rendez.cc:29-50 | an interrupt keeps everything covered, because an already woken task wakes another |
| Rendez.WokenInOrder | src/rendez.cc:53-78 | over every run, of two waiters that are not thrown out the one ahead is woken first |
| Rendez.SleepsBehind | src/rendez.cc:7-17 | so whoever goes to sleep is not woken before any task that slept then |
| Rendez.WakesSomebody | src/rendez.cc:53-78 | waking one wakes the longest waiter, waking all wakes all in order |
| Rendez.RendezQueue.Sleep | src/rendez.cc:7-17 | joins the end of the queue |
| Rendez.RendezQueue.Wakeup | src/rendez.cc:53-65 | takes off and wakes the longest waiter, if any |
| Rendez.RendezQueue.WakeupAll | src/rendez.cc:67-78 | takes off and wakes everybody |
| Rendez.RendezQueue.Interrupt | src/rendez.cc:29-50 | leaves the queue, or wakes the longest waiter instead if it had been woken |
| Channel.RunKeeps | include/ten/channel.hh:109-170 | order, capacity, parking and wake-up invariants hold over every interleaving of send, recv, close, clear and interrupts |
| Channel.NoLostWakeup | include/ten/channel.hh:109-170 | in every run: a queued receiver means woken receivers for all items; a queued sender means woken senders for all free slots (capacity above 1) or a full queue (capacity 1); nobody is queued on a closed channel |
| Channel.NobodyStuck | include/ten/channel.hh:109-170 | once all woken tasks ran, receivers still parked face an empty open channel and senders a full open one |
| Channel.AcceptedAreEntered | include/ten/channel.hh:109-126 | in every run the items queued are, in order, those passed to the calls of send that found the channel open and not full, at once or when woken; for a woken sender it is the item of its last call |
| Channel.BoundedFifo | include/ten/channel.hh:109-148 | in every run the items that left, received or cleared, followed by the queue are exactly those items in order; the queue is within capacity |
| Channel.ReceivesNext | include/ten/channel.hh:128-154 | a receiver gets the first of those items that had not left; if none is left it sees the closed error exactly if the channel is closed, and else waits |
| Channel.SendOutcome | include/ten/channel.hh:109-126 | send throws if the channel is closed, waits with its item if it is full, and else queues it, returning the former size or, with capacity 1, waiting |
| Channel.SentGotIn | include/ten/channel.hh:109-126 | in every run a send that returns has its item among those queued |
| Channel.ClosedIff | include/ten/channel.hh:156-162 | a channel is closed exactly from the first close on |
| Channel.CloseWakes | include/ten/channel.hh:156-162 | close leaves nobody asleep and drops no item |
| Channel.InterruptLeaves | include/ten/channel.hh:113-133 | in every run a task interrupted in send or recv leaves the queue as it is, stays in neither line, and an unsent item never gets in |
| Channel.NothingAfterClose | include/ten/channel.hh:109-162 | after close nothing is accepted, whatever follows |
| Channel.SynchronousSend | include/ten/channel.hh:119-124 | with capacity 1 a woken sender returns if and only if it had queued its item and the channel is closed or the queue empty just then; on an open channel its item was received or cleared, and received if nothing was cleared since some moment at which it had not left |
| Channel.TakenButParked | include/ten/channel.hh:119-124 | a run in which the item was taken and its sender has to wait on |
| Channel.ClearedNotReceived | include/ten/channel.hh:119-170 | a run in which the item was cleared and its sender returns |
| Channel.SendReturns | include/ten/channel.hh:112-125 | in every run what send returns, at once or after any number of sleeps, is the size of the queue when it was called |
| Channel.ChannelImpl.Send | include/ten/channel.hh:109-126 | the first critical section of send is the step of the system, size returned included |
| Channel.ChannelImpl.AwaitRoom | include/ten/channel.hh:113-126 | a later one, on waking in the first wait, is too |
| Channel.ChannelImpl.AwaitTaken | include/ten/channel.hh:119-124 | a critical section of the second wait in send is the step of the system |
| Channel.ChannelImpl.Recv | include/ten/channel.hh:128-148 | a critical section of recv is the step of the system |
| Channel.ChannelImpl.Close | include/ten/channel.hh:156-162 | close wakes both queues and closes |
| Channel.ChannelImpl.Clear | include/ten/channel.hh:164-170 | the loop empties the queue, accounting for every item, and wakes all senders |
| Tasks.Find | src/qutex.cc:78-78 | the first position of an entry, or the length |
| AsciiCase.ToUpperLanes | src/http_message.cc:83-93 | for every 32-bit word each byte of the result is the upper case of that byte: no carry or borrow crosses |
| AsciiCase.WordsCompare | src/http_message.cc:113-118 | comparing upper-cased words is comparing their bytes through the table |
| AsciiCase.CompareUpper | src/http_message.cc:95-133 | words first, then leftovers: true exactly if all bytes agree up to case, for every length |
| AsciiCase.EqualsIgnoreCase | src/http_message.cc:137-141 | exactly equality up to ASCII case, different lengths included |
| AsciiCase.SameIsEquivalence | src/http_message.cc:137-141 | that relation is an equivalence, and the one lower-casing gives |
| HeaderList.SetThenGet | src/http_message.cc:164-171 | set decides what that name gives in any case, leaves every other name alone, and keeps order |
| HeaderList.RemoveThenGet | src/http_message.cc:181-188 | remove takes out every header of that name in any case and leaves what the others give |
| HeaderList.AppendThenGet | src/http_message.cc:160-162 | append never hides a header that is there |
| HeaderList.HttpHeaders.Find | src/http_message.cc:152-158 | finds the first header of that name in any case |
| HeaderList.HttpHeaders.Append | src/http_message.cc:160-162 | adds at the end |
| HeaderList.HttpHeaders.Set | src/http_message.cc:164-171 | replaces the first value or adds at the end |
| HeaderList.HttpHeaders.Contains | src/http_message.cc:177-179 | whether get would find something |
| HeaderList.HttpHeaders.Get | src/http_message.cc:190-196 | the value of the first header of that name, or nothing |
| HeaderList.HttpHeaders.Remove | src/http_message.cc:181-188 | keeps the others in order and says whether anything went |
| HashRing.AddMovesOnlyToNode | include/ten/consistent_hash.hh:22-30 | after add every datum belongs to the same node as before or to the new one, collisions included |
| HashRing.AddedAt | include/ten/consistent_hash.hh:22-30 | after add the points of the node are its own and every other point is as it was |
| HashRing.AddTakes | include/ten/consistent_hash.hh:22-30 | after add a datum belongs to one of the new points if and only if the ring was empty, its point was taken over, or one of them lies between its hash and that point |
| HashRing.OnlyNode | include/ten/consistent_hash.hh:22-56 | the first node added gets everything |
| HashRing.RemoveMovesOnlyOwned | include/ten/consistent_hash.hh:32-42 | remove changes the owning point of a datum if and only if it is one of the removed points |
| HashRing.RemoveKeepsOthers | include/ten/consistent_hash.hh:32-42 | without shared points only data of the removed node move |
| HashRing.AddThenRemove | include/ten/consistent_hash.hh:22-42 | add then remove restores the ring if and only if the node's points were free |
| HashRing.TakenPointLost | include/ten/consistent_hash.hh:22-42 | a ring and a node where it does not: the point was taken |
| HashRing.LowerBound | include/ten/consistent_hash.hh:49-50 | the least point not below the hash, or none |
| HashRing.HashRing.Add | include/ten/consistent_hash.hh:22-30 | all replicas of the node are its points, whatever they were before, and no other point changes |
| HashRing.HashRing.Remove | include/ten/consistent_hash.hh:32-42 | the node's points are gone, and the number returned is how many there were |
| HashRing.HashRing.Get | include/ten/consistent_hash.hh:44-56 | the node of the next point at or behind the hash, wrapping around; an error exactly on an empty ring |
| AlarmClock.InsertedSorted | src/alarm.hh:43-49 | insertion keeps the list sorted and adds exactly that alarm |
| AlarmClock.DueExactly | src/alarm.hh:75-85 | in a sorted list stopping at the first later alarm finds exactly the alarms due |
| AlarmClock.AlarmsAreKept | src/alarm.hh:43-94 | after every run: sorted; every alarm is pending, fired or was cancelled, together as often as the calls inserted it, a cancel taking one equal pending alarm and a cancel by value all of that value; when() the earliest pending time; and a tick fires exactly those due, in order, leaving only later ones |
| AlarmClock.LowerBound | src/alarm.hh:45-46 | binary search finds how many alarms are earlier |
| AlarmClock.Clock.Insert | src/alarm.hh:43-49 | the alarm goes before the first that is not earlier |
| AlarmClock.Clock.Cancel | src/alarm.hh:60-65 | one equal alarm goes, if there is one |
| AlarmClock.Clock.CancelAll | src/alarm.hh:67-71 | all alarms of a value go, the others keep their order |
| AlarmClock.Clock.Tick | src/alarm.hh:75-85 | raises and removes the due alarms at the front, in order |
| Buffer.Buffer.constructor | include/ten/buffer.hh:30-34 | an empty queue |
| Buffer.Buffer.Compact | include/ten/buffer.hh:41-47 | moves the held bytes to the front, in place and overlapping, without changing them |
| Buffer.Buffer.Reserve | include/ten/buffer.hh:51-68 | room for n bytes with contents kept if and only if size + n is below 2^32, and otherwise a block shorter than what is held; a refused allocation loses nothing |
| Buffer.ReserveWraps | include/ten/buffer.hh:51-68 | one such call: with one byte held, 2^32 - 1 more are granted as a block of no bytes |
| Buffer.Buffer.Commit | include/ten/buffer.hh:71-76 | appends exactly the next n bytes, refusing more than are available; removed followed by held bytes stay what was committed |
| Buffer.Buffer.Remove | include/ten/buffer.hh:79-88 | drops exactly the first n bytes, refusing more than are held; removed followed by held bytes stay what was committed |

## Left out

- Pausing a parser from inside a callback, and data callbacks that return an error: no callback of the library does either.
- Non-strict mode of the parser, which the CMake build selects (CMakeLists.txt:25): spaces within header names, bytes above 127 and tabs in urls, underscores in hosts, missing checks on line ends, and a new message after one that asked to close.
- Which numbers of 2^64-1 and above in Content-Length and chunk sizes are refused, and which taken for another number: the overflow test compares with the old value only.
- HttpRfc.FramedAsRfc: does not cover rule 4 (multipart/byteranges, which the parser does not know), nor the exception that rule 2 makes for a message ended by closing the connection, because no header shows it; where Content-Length is not a number or given twice with different numbers the RFC has no rule.
- Channel: a critical section of the channel's lock is one step. An interrupt handler runs outside that lock but touches one condition queue only, so one that falls inside a critical section commutes with everything in it that uses another queue or the items.
- Scheduler: context switches, the clock, and which file descriptors have events are not modelled; timers and events ready arbitrary tasks at the points where the code does. The cancellation flag of the scheduler is not, so a shutdown may start at any time.
- Qutex: the check that a locking task is not cancelable.
- task::impl::join parks once without re-checking and depends on no other wake arriving.
- AlarmClock: a callback of tick that changes the alarm list; the library's own does not. scoped_alarm objects.
- Buffer: bytes behind the back are whatever the block holds; clear() is remove of everything.
- HashRing: printing nodes and hashing are a parameter, and nodes() is not modelled.
- UrlParser: the record is taken to be filled with zeroes, as http_parse_host reads the host entry of a url without one; the fields of a url that does not parse are not described.
- Sockets, TLS, DNS, epoll calls, context switching and stack allocation; JSON, zip, metrics, logging and application code; backoff and moving averages.

/** The incremental matchers over header names and values decide exactly what comparing the whole
    strings, ignoring ASCII case, would decide. */
module HttpKeywords {
  import opened HttpTypes
  import opened HttpChars
  import opened HttpStep

  function LowerAll(s: string): (r: string)
    ensures |r| == |s|
    ensures forall i :: 0 <= i < |s| ==> r[i] == Lowered(s[i])
  {
    seq(|s|, i requires 0 <= i < |s| => Lowered(s[i]))
  }

  predicate AllTokens(s: string) { forall i :: 0 <= i < |s| ==> IsToken(s[i]) }

  /** The matcher after a whole header name. */
  function NameMatch(name: string): (HeaderState, nat)
    requires name != []
    decreases |name|
  {
    var n := |name| - 1;
    if n == 0 then (FieldMatchStart(Token(name[0])), 0)
    else
      var (h, i) := NameMatch(name[..n]);
      match FieldMatch(h, i, name[n])
      case Some(r) => r
      case None => (General, i)
  }

  predicate Prefix(s: string, keyword: string) {
    |s| <= |keyword| && forall i :: 0 <= i < |s| ==> s[i] == keyword[i]
  }

  lemma PrefixGrows(s: string, c: char, keyword: string)
    ensures Prefix(s + [c], keyword) <==> Prefix(s, keyword) && |s| < |keyword| && c == keyword[|s|]
  {
    assert (s + [c])[|s|] == c;
    assert forall i :: 0 <= i < |s| ==> (s + [c])[i] == s[i];
  }

  /** The matcher state a lower-case name calls for, said about the whole name: the state of the
      keyword it is a prefix of, and the general state when it is a prefix of none. */
  function NameState(s: string): HeaderState {
    if Prefix(s, CONNECTION) then
      if |s| == 10 then Connection else if |s| >= 4 then MatchingConnection
      else if |s| == 3 then HCON else if |s| == 2 then HCO else HC
    else if Prefix(s, CONTENT_LENGTH) then
      if |s| == 14 then ContentLength else MatchingContentLength
    else if Prefix(s, PROXY_CONNECTION) then
      if |s| == 16 then Connection else MatchingProxyConnection
    else if Prefix(s, TRANSFER_ENCODING) then
      if |s| == 17 then TransferEncoding else MatchingTransferEncoding
    else if Prefix(s, UPGRADE) then
      if |s| == 7 then Upgrade else MatchingUpgrade
    else General
  }

  lemma NameStarts(c: char)
    requires IsToken(c)
    ensures FieldMatchStart(Token(c)) == NameState([Lowered(c)])
  {
    var s := [Lowered(c)];
    assert CONNECTION[0] == 'c' && PROXY_CONNECTION[0] == 'p' && TRANSFER_ENCODING[0] == 't' &&
           UPGRADE[0] == 'u' && CONTENT_LENGTH[0] == 'c';
    assert s[0] == Lowered(c);
  }

  /** Of the keywords, only two share a beginning, and only for three characters. */
  lemma KeywordsDiffer(s: string)
    requires s != []
    ensures Prefix(s, PROXY_CONNECTION) ==> !Prefix(s, CONNECTION) && !Prefix(s, CONTENT_LENGTH)
    ensures Prefix(s, TRANSFER_ENCODING) ==>
      !Prefix(s, CONNECTION) && !Prefix(s, CONTENT_LENGTH) && !Prefix(s, PROXY_CONNECTION)
    ensures Prefix(s, UPGRADE) ==>
      !Prefix(s, CONNECTION) && !Prefix(s, CONTENT_LENGTH) && !Prefix(s, PROXY_CONNECTION) && !Prefix(s, TRANSFER_ENCODING)
    ensures |s| >= 4 && Prefix(s, CONTENT_LENGTH) ==> !Prefix(s, CONNECTION)
    ensures |s| <= 3 ==> (Prefix(s, CONTENT_LENGTH) <==> Prefix(s, CONNECTION))
  {
    assert CONNECTION[0] == 'c' && CONNECTION[1] == 'o' && CONNECTION[2] == 'n' && CONNECTION[3] == 'n';
    assert CONTENT_LENGTH[0] == 'c' && CONTENT_LENGTH[1] == 'o' && CONTENT_LENGTH[2] == 'n' && CONTENT_LENGTH[3] == 't';
    assert PROXY_CONNECTION[0] == 'p' && TRANSFER_ENCODING[0] == 't' && UPGRADE[0] == 'u';
    assert s[0] == s[0];
  }

  /** What one more character makes of the prefixes. */
  ghost predicate Grown(s: string, c: char, keyword: string) {
    Prefix(s + [c], keyword) <==> Prefix(s, keyword) && |s| < |keyword| && c == keyword[|s|]
  }

  ghost predicate AllGrown(s: string, c: char) {
    && Grown(s, c, CONNECTION) && Grown(s, c, CONTENT_LENGTH) && Grown(s, c, PROXY_CONNECTION)
    && Grown(s, c, TRANSFER_ENCODING) && Grown(s, c, UPGRADE)
  }

  lemma PrefixesGrow(s: string, c: char)
    ensures AllGrown(s, c)
  {
    hide Prefix;
    PrefixGrows(s, c, CONNECTION);
    PrefixGrows(s, c, CONTENT_LENGTH);
    PrefixGrows(s, c, PROXY_CONNECTION);
    PrefixGrows(s, c, TRANSFER_ENCODING);
    PrefixGrows(s, c, UPGRADE);
  }

  /** Names that may still become one of two keywords. */
  lemma ShortNameGrows(s: string, c: char)
    requires 0 < |s| <= 3 && Prefix(s, CONNECTION) && IsToken(c)
    ensures var r := FieldMatch(NameState(s), |s| - 1, c);
      r.Some? && r.value.0 == NameState(s + [Lowered(c)]) && r.value.1 == |s|
  {
    hide Prefix;
    PrefixesGrow(s, Lowered(c));
    KeywordsDiffer(s);
    KeywordsDiffer(s + [Lowered(c)]);
    assert CONNECTION[1] == 'o' && CONNECTION[2] == 'n' && CONNECTION[3] == 'n' && CONTENT_LENGTH[3] == 't';
  }

  /** Names that can only become one keyword. */
  lemma LongNameGrows(s: string, c: char, index: nat)
    requires s != [] && (|s| <= 3 ==> !Prefix(s, CONNECTION)) && IsToken(c)
    requires NameState(s) != General ==> index == |s| - 1
    ensures var r := FieldMatch(NameState(s), index, c);
      r.Some? && r.value.0 == NameState(s + [Lowered(c)]) && (r.value.0 != General ==> r.value.1 == |s|)
  {
    hide Prefix;
    PrefixesGrow(s, Lowered(c));
    KeywordsDiffer(s);
    KeywordsDiffer(s + [Lowered(c)]);
  }

  lemma NameGrows(s: string, c: char, h: HeaderState, index: nat)
    requires s != [] && IsToken(c)
    requires h == NameState(s) && (h != General ==> index == |s| - 1)
    ensures var r := FieldMatch(h, index, c);
      r.Some? && r.value.0 == NameState(s + [Lowered(c)]) && (r.value.0 != General ==> r.value.1 == |s|)
  {
    hide Prefix, FieldMatch, IsToken, Lowered;
    if |s| <= 3 && Prefix(s, CONNECTION) {
      assert NameState(s) != General;
      hide NameState;
      ShortNameGrows(s, c);
    } else {
      hide NameState;
      LongNameGrows(s, c, index);
    }
  }

  /** The matcher over a name agrees with the whole-name classification. */
  lemma {:induction false} NameMatchSpec(name: string)
    requires name != [] && AllTokens(name)
    ensures var (h, i) := NameMatch(name); h == NameState(LowerAll(name)) && (h != General ==> i == |name| - 1)
    decreases |name|
  {
    hide NameState, FieldMatch, FieldMatchStart, IsToken;
    var n := |name| - 1;
    if n == 0 {
      NameStarts(name[0]);
      assert LowerAll(name) == [Lowered(name[0])];
    } else {
      NameMatchSpec(name[..n]);
      var (h, i) := NameMatch(name[..n]);
      NameGrows(LowerAll(name[..n]), name[n], h, i);
      assert LowerAll(name) == LowerAll(name[..n]) + [Lowered(name[n])];
    }
  }

  /** Which of the headers the parser acts on a name denotes, said about the whole name. */
  function HeaderKind(name: string): HeaderState {
    var s := LowerAll(name);
    if s == "connection" || s == "proxy-connection" then Connection
    else if s == "content-length" then ContentLength
    else if s == "transfer-encoding" then TransferEncoding
    else if s == "upgrade" then Upgrade
    else General
  }

  predicate Finished(h: HeaderState) { h.Connection? || h.ContentLength? || h.TransferEncoding? || h.Upgrade? }

  /** The matcher ends in one of the four states that matter exactly for the names that denote them. */
  lemma NameKind(name: string)
    requires name != [] && AllTokens(name)
    ensures var h := NameMatch(name).0;
      if Finished(h) then h == HeaderKind(name) else HeaderKind(name) == General
  {
    hide NameMatch;
    NameMatchSpec(name);
    var s := LowerAll(name);
    assert s == CONNECTION <==> Prefix(s, CONNECTION) && |s| == 10;
    assert s == PROXY_CONNECTION <==> Prefix(s, PROXY_CONNECTION) && |s| == 16;
    assert s == CONTENT_LENGTH <==> Prefix(s, CONTENT_LENGTH) && |s| == 14;
    assert s == TRANSFER_ENCODING <==> Prefix(s, TRANSFER_ENCODING) && |s| == 17;
    assert s == UPGRADE <==> Prefix(s, UPGRADE) && |s| == 7;
    KeywordsDiffer(s);
  }

  // ---- values ----

  predicate ValueChar(c: char) { c != CR && c != LF }

  /** A header value as written on one line: no line ends, no leading blanks. */
  predicate IsValue(v: string) {
    && (forall i :: 0 <= i < |v| ==> ValueChar(v[i]))
    && (v != [] ==> !IsBlank(v[0]))
  }

  /** The matcher after a whole value of a header whose name left it in state `h`. */
  function ValueMatchAll(h: HeaderState, v: string): (HeaderState, nat)
    requires v != []
    decreases |v|
  {
    var n := |v| - 1;
    if n == 0 then (ValueMatchStart(h, v[0]), 0)
    else
      var (g, i) := ValueMatchAll(h, v[..n]);
      match ValueMatch(g, i, v[n])
      case Some(r) => r
      case None => (General, i)
  }

  /** The value is the keyword, in any case, followed by nothing but spaces. */
  predicate SaysExactly(v: string, keyword: string) {
    |keyword| <= |v| && LowerAll(v[..|keyword|]) == keyword && forall j :: |keyword| <= j < |v| ==> v[j] == ' '
  }

  /** Setting bit 5 lowers a character as far as letters and the hyphen can tell, carriage return aside. */
  lemma Bit5Lowers(c: char, k: char)
    requires c != CR && ('a' <= k <= 'z' || k == '-')
    ensures SetBit5(c) == k <==> Lowered(c) == k
  {
  }

  /** The state of matching `keyword`: on the way, there (trailing spaces allowed), or lost. */
  ghost predicate Toward(h: HeaderState, index: nat, v: string, keyword: string, matching: HeaderState, done: HeaderState) {
    if |v| < |keyword| then
      if Prefix(LowerAll(v), keyword) then h == matching && index == |v| - 1 else h == General
    else if SaysExactly(v, keyword) then h == done else h == General
  }

  predicate Keyword(k: string) { |k| >= 2 && forall i :: 0 <= i < |k| ==> 'a' <= k[i] <= 'z' || k[i] == '-' }

  lemma TowardStarts(c: char, keyword: string, matching: HeaderState, done: HeaderState)
    requires Keyword(keyword) && c != CR
    ensures Toward(if SetBit5(c) == keyword[0] then matching else General, 0, [c], keyword, matching, done)
  {
    Bit5Lowers(c, keyword[0]);
    assert LowerAll([c])[0] == Lowered(c);
  }

  /** One more character of the value, before the keyword is complete. */
  lemma TowardNears(v: string, c: char, h: HeaderState, index: nat, keyword: string, matching: HeaderState, done: HeaderState)
    requires v != [] && Keyword(keyword) && c != CR && |v| < |keyword|
    requires matching != General && done != General && matching != done
    requires Toward(h, index, v, keyword, matching, done)
    ensures h == matching ==>
      Toward(Advance(keyword, matching, done, index + 1, SetBit5(c)), index + 1, v + [c], keyword, matching, done)
    ensures h == General ==> Toward(General, index, v + [c], keyword, matching, done)
  {
    var w := v + [c];
    assert LowerAll(w) == LowerAll(v) + [Lowered(c)];
    PrefixGrows(LowerAll(v), Lowered(c), keyword);
    Bit5Lowers(c, keyword[|v|]);
    if |w| == |keyword| {
      assert w[..|keyword|] == w;
      assert SaysExactly(w, keyword) <==> Prefix(LowerAll(w), keyword);
    }
  }

  /** One more character of the value, after the keyword is complete. */
  lemma TowardPasses(v: string, c: char, h: HeaderState, index: nat, keyword: string, matching: HeaderState, done: HeaderState)
    requires Keyword(keyword) && |keyword| <= |v| && Toward(h, index, v, keyword, matching, done) && done != General
    ensures h == done ==> Toward(if c != ' ' then General else done, index, v + [c], keyword, matching, done)
    ensures h == General ==> Toward(General, index, v + [c], keyword, matching, done)
  {
    var w := v + [c];
    var n := |keyword|;
    assert w[..n] == v[..n];
    assert w[|v|] == c;
    assert forall j :: n <= j < |v| ==> w[j] == v[j];
  }

  lemma TowardGrows(v: string, c: char, h: HeaderState, index: nat, keyword: string, matching: HeaderState, done: HeaderState)
    requires v != [] && Keyword(keyword) && c != CR
    requires Toward(h, index, v, keyword, matching, done)
    requires (keyword, matching, done) in
      {(CHUNKED, MatchingChunked, Chunked), (KEEP_ALIVE, MatchingKeepAlive, KeepAlive), (CLOSE, MatchingClose, Close)}
    ensures var r := ValueMatch(h, index, c);
      r.Some? && Toward(r.value.0, r.value.1, v + [c], keyword, matching, done)
  {
    if |v| < |keyword| {
      TowardNears(v, c, h, index, keyword, matching, done);
    } else {
      TowardPasses(v, c, h, index, keyword, matching, done);
    }
    hide Advance, LowerAll, Prefix, SaysExactly;
  }

  /** What a value says about the message, said about the whole value. */
  function ValueKind(h: HeaderState, v: string): HeaderState {
    if h.TransferEncoding? && SaysExactly(v, CHUNKED) then Chunked
    else if h.Connection? && SaysExactly(v, KEEP_ALIVE) then KeepAlive
    else if h.Connection? && SaysExactly(v, CLOSE) then Close
    else General
  }

  /** Where the matcher is after a value, given the name that came before. */
  ghost predicate ValueTracked(h: HeaderState, v: string, g: HeaderState, index: nat)
    requires v != []
  {
    if h.TransferEncoding? then Toward(g, index, v, CHUNKED, MatchingChunked, Chunked)
    else if h.Connection? && Lowered(v[0]) == 'k' then Toward(g, index, v, KEEP_ALIVE, MatchingKeepAlive, KeepAlive)
    else if h.Connection? && Lowered(v[0]) == 'c' then Toward(g, index, v, CLOSE, MatchingClose, Close)
    else g == General
  }

  lemma KeywordsAre()
    ensures Keyword(CHUNKED) && Keyword(KEEP_ALIVE) && Keyword(CLOSE)
    ensures CHUNKED[0] == 'c' && KEEP_ALIVE[0] == 'k' && CLOSE[0] == 'c'
    ensures |CHUNKED| == 7 && |KEEP_ALIVE| == 10 && |CLOSE| == 5
  {
  }

  lemma {:induction false} ValueMatchTracks(h: HeaderState, v: string)
    requires v != [] && !h.ContentLength? && forall i :: 0 <= i < |v| ==> ValueChar(v[i])
    ensures var (g, i) := ValueMatchAll(h, v); ValueTracked(h, v, g, i)
    decreases |v|
  {
    hide Toward, Advance;
    KeywordsAre();
    var n := |v| - 1;
    if n == 0 {
      assert v == [v[0]];
      TowardStarts(v[0], CHUNKED, MatchingChunked, Chunked);
      TowardStarts(v[0], KEEP_ALIVE, MatchingKeepAlive, KeepAlive);
      TowardStarts(v[0], CLOSE, MatchingClose, Close);
      Bit5Lowers(v[0], 'k');
      Bit5Lowers(v[0], 'c');
    } else {
      ValueMatchTracks(h, v[..n]);
      assert v == v[..n] + [v[n]] && v[..n][0] == v[0];
      var (g, i) := ValueMatchAll(h, v[..n]);
      if h.TransferEncoding? {
        TowardGrows(v[..n], v[n], g, i, CHUNKED, MatchingChunked, Chunked);
      } else if h.Connection? && Lowered(v[0]) == 'k' {
        TowardGrows(v[..n], v[n], g, i, KEEP_ALIVE, MatchingKeepAlive, KeepAlive);
      } else if h.Connection? && Lowered(v[0]) == 'c' {
        TowardGrows(v[..n], v[n], g, i, CLOSE, MatchingClose, Close);
      }
    }
  }

  /** The matcher over a value recognises exactly the values that say a keyword. */
  lemma ValueMatchSpec(h: HeaderState, v: string)
    requires v != [] && !h.ContentLength? && forall i :: 0 <= i < |v| ==> ValueChar(v[i])
    ensures var g := ValueMatchAll(h, v).0;
      if g.Chunked? || g.KeepAlive? || g.Close? then g == ValueKind(h, v) else ValueKind(h, v) == General
  {
    hide ValueMatchAll;
    ValueMatchTracks(h, v);
    KeywordsAre();
    assert SaysExactly(v, CHUNKED) ==> LowerAll(v[..7])[0] == 'c';
    assert SaysExactly(v, KEEP_ALIVE) ==> LowerAll(v[..10])[0] == 'k';
    assert SaysExactly(v, CLOSE) ==> LowerAll(v[..5])[0] == 'c';
  }
}

/** The characters of urls and header names by their code points, and the request targets the url
    automaton accepts. */
module UrlGrammar {
  import opened HttpTypes
  import opened HttpChars
  import opened UrlAutomaton

  // ---- characters ----

  predicate Letter(n: int) { 65 <= n <= 90 || 97 <= n <= 122 }

  predicate Decimal(n: int) { 48 <= n <= 57 }

  /** ASCII from the exclamation mark to the tilde. */
  predicate Visible(n: int) { 33 <= n <= 126 }

  const SLASH := 47
  const COLON := 58
  const QUESTION := 63
  const HASH := 35
  const AT := 64
  const STAR := 42

  /** Unreserved characters of RFC 3986 section 2.3: letters, digits and - . _ ~ */
  predicate Unreserved(n: int) { Letter(n) || Decimal(n) || n in {45, 46, 95, 126} }

  /** Its sub-delims, section 2.2: ! $ & ' ( ) * + , ; = */
  predicate SubDelim(n: int) { n in {33, 36} || 38 <= n <= 44 || n in {59, 61} }

  /** Userinfo, section 3.2.1, with the per cent sign of an encoded byte. */
  predicate UserinfoChar(n: int) { Unreserved(n) || SubDelim(n) || n == COLON || n == 37 }

  /** A character of a path segment, section 3.3. */
  predicate SegmentChar(n: int) { UserinfoChar(n) || n == AT }

  /** A character of a path, a query or a fragment, sections 3.3 to 3.5. */
  predicate PathChar(n: int) { SegmentChar(n) || n == SLASH }
  predicate QueryChar(n: int) { PathChar(n) || n == QUESTION }

  /** Hexadecimal digits, and the other characters of an IPv6 address, section 3.2.2. */
  predicate HexChar(n: int) { Decimal(n) || 65 <= n <= 70 || 97 <= n <= 102 }
  predicate V6Char(n: int) { HexChar(n) || n == COLON || n == 46 }

  /** The host names the parser knows: letters, digits, full stops and hyphens. */
  predicate NameChar(n: int) { Letter(n) || Decimal(n) || n == 46 || n == 45 }

  /** A token character of RFC 2616 section 2.2: any CHAR except controls and separators. */
  predicate TokenChar(n: int) {
    && 0 <= n <= 127 && !(n <= 31 || n == 127)
    && n !in {40, 41, 60, 62, 64, 44, 59, 58, 92, 34, 47, 91, 93, 63, 61, 123, 125, 32, 9}
  }

  /** Header names are made of exactly the token characters, and compared in lower case. */
  lemma TokenTable(c: char)
    ensures IsToken(c) <==> TokenChar(c as int)
    ensures Token(c) as int == if !TokenChar(c as int) then 0 else if 65 <= c as int <= 90 then c as int + 32 else c as int
  {
  }

  // ---- the automaton by code points ----

  /** What the automaton does on a character of a server part. */
  predicate ServerTable(n: int, r: UrlState) {
    if n == SLASH then r == Path
    else if n == QUESTION then r == QueryStart
    else if n == AT then r == ServerWithAt
    else if UserinfoChar(n) || n == 91 || n == 93 then r == Server
    else r == UrlDead
  }

  /** For every state and every character, where the url automaton goes. */
  lemma UrlTable(s: UrlState, c: char)
    ensures var n, r := c as int, UrlStep(s, c);
      match s
      case SpacesBefore => r == if n == SLASH || n == STAR then Path else if Letter(n) then Schema else UrlDead
      case Schema => r == if Letter(n) then Schema else if n == COLON then SchemaSlash else UrlDead
      case SchemaSlash => r == if n == SLASH then SchemaSlashSlash else UrlDead
      case SchemaSlashSlash => r == if n == SLASH then ServerStart else UrlDead
      case ServerStart => ServerTable(n, r)
      case Server => ServerTable(n, r)
      case ServerWithAt => if n == AT then r == UrlDead else ServerTable(n, r)
      case Path =>
        r == if n == HASH then FragmentStart else if n == QUESTION then QueryStart else if Visible(n) then Path else UrlDead
      case QueryStart => r == if n == HASH then FragmentStart else if Visible(n) then Query else UrlDead
      case Query => r == if n == HASH then FragmentStart else if Visible(n) then Query else UrlDead
      case FragmentStart => r == if n == HASH then FragmentStart else if Visible(n) then Fragment else UrlDead
      case Fragment => r == if Visible(n) then Fragment else UrlDead
      case UrlDead => r == UrlDead
  {
  }

  // ---- the request targets it accepts ----

  predicate Graphic(w: string) { forall c <- w :: Visible(c as int) }

  predicate AuthorityChar(n: int) { UserinfoChar(n) || n == AT || n == 91 || n == 93 }

  /** How many characters of an authority w starts with. */
  function AuthorityLength(w: string): (k: nat)
    ensures k <= |w|
    ensures forall i :: 0 <= i < k ==> AuthorityChar(w[i] as int)
    ensures k < |w| ==> !AuthorityChar(w[k] as int)
  {
    if w != [] && AuthorityChar(w[0] as int) then 1 + AuthorityLength(w[1..]) else 0
  }

  predicate NoDoubleAt(w: string) { forall i :: 0 <= i < |w| - 1 ==> !(w[i] as int == AT && w[i + 1] as int == AT) }

  /** A path or a query, up to the end: any visible characters. */
  predicate Onwards(w: string) { w != [] ==> (w[0] as int == SLASH || w[0] as int == QUESTION) && Graphic(w) }

  /** An authority and what follows it; one of them may be absent. */
  predicate ServerTarget(w: string) {
    var k := AuthorityLength(w);
    w != [] && NoDoubleAt(w[..k]) && Onwards(w[k..])
  }

  /** How many letters w starts with. */
  function LetterLength(w: string): (k: nat)
    ensures k <= |w|
    ensures forall i :: 0 <= i < k ==> Letter(w[i] as int)
    ensures k < |w| ==> !Letter(w[k] as int)
  {
    if w != [] && Letter(w[0] as int) then 1 + LetterLength(w[1..]) else 0
  }

  predicate SlashesAhead(w: string) { |w| >= 3 && w[0] as int == COLON && w[1] as int == SLASH && w[2] as int == SLASH }

  /** Letters, a colon, two slashes, and an authority with what follows. */
  predicate AbsoluteTarget(w: string) {
    var k := LetterLength(w);
    k > 0 && SlashesAhead(w[k..]) && ServerTarget(w[k + 3..])
  }

  /** A path, or an asterisk, with anything visible behind it. */
  predicate OriginTarget(w: string) { w != [] && (w[0] as int == SLASH || w[0] as int == STAR) && Graphic(w) }

  /** The request targets of RFC 2616 section 5.1.2 as the parser takes them. */
  predicate Target(w: string, connect: bool) {
    if connect then ServerTarget(w) else OriginTarget(w) || AbsoluteTarget(w)
  }

  predicate InRest(s: UrlState) { s.Path? || s.QueryStart? || s.Query? || s.FragmentStart? || s.Fragment? }

  predicate InServer(s: UrlState) { s.ServerStart? || s.Server? || s.ServerWithAt? }

  lemma {:induction false} DeadRun(w: string)
    ensures UrlRun(UrlDead, w) == UrlDead
    decreases |w|
  {
    if w != [] { DeadRun(w[1..]); }
  }

  lemma GraphicStep(w: string)
    requires w != []
    ensures Graphic(w) <==> Visible(w[0] as int) && Graphic(w[1..])
  {
    hide Visible;
    if Visible(w[0] as int) && Graphic(w[1..]) {
      forall c | c in w ensures Visible(c as int) { assert c == w[0] || c in w[1..]; }
    } else if Graphic(w) {
      assert w[0] in w;
      forall c | c in w[1..] ensures Visible(c as int) { assert c in w; }
    }
  }

  /** From the path on, any visible characters will do. */
  lemma {:induction false} RestRun(s: UrlState, w: string)
    requires InRest(s)
    ensures UrlMayEnd(UrlRun(s, w)) <==> Graphic(w)
    decreases |w|
  {
    hide UrlStep;
    if w != [] {
      UrlTable(s, w[0]);
      GraphicStep(w);
      if Visible(w[0] as int) { RestRun(UrlStep(s, w[0]), w[1..]); } else { DeadRun(w[1..]); }
    }
  }

  lemma LengthStep(w: string)
    requires w != [] && AuthorityChar(w[0] as int)
    ensures AuthorityLength(w) == 1 + AuthorityLength(w[1..])
    ensures w[AuthorityLength(w)..] == w[1..][AuthorityLength(w[1..])..]
    ensures w[..AuthorityLength(w)] == [w[0]] + w[1..][..AuthorityLength(w[1..])]
  {
  }

  /** What follows an at sign is not another one. */
  predicate AtOk(s: UrlState, w: string) { s.ServerWithAt? && w != [] ==> w[0] as int != AT }

  lemma DoubleAtStep(c: char, a: string)
    ensures NoDoubleAt([c] + a) <==> NoDoubleAt(a) && (c as int == AT && a != [] ==> a[0] as int != AT)
  {
    var w := [c] + a;
    if NoDoubleAt(w) {
      forall i | 0 <= i < |a| - 1 ensures !(a[i] as int == AT && a[i + 1] as int == AT) {
        assert w[i + 1] == a[i] && w[i + 1 + 1] == a[i + 1];
      }
      assert a != [] ==> !(w[0] as int == AT && w[1] as int == AT);
    }
  }

  predicate ServerEnds(s: UrlState, w: string) {
    var k := AuthorityLength(w);
    (s.ServerStart? ==> w != []) && AtOk(s, w) && NoDoubleAt(w[..k]) && Onwards(w[k..])
  }

  lemma ServerEndsStep(s: UrlState, r: UrlState, w: string)
    requires InServer(s) && w != [] && AuthorityChar(w[0] as int) && AtOk(s, w)
    requires r == if w[0] as int == AT then ServerWithAt else Server
    ensures ServerEnds(s, w) <==> ServerEnds(r, w[1..])
  {
    LengthStep(w);
    DoubleAtStep(w[0], w[1..][..AuthorityLength(w[1..])]);
    hide NoDoubleAt, Onwards;
  }

  lemma NoAuthority(w: string)
    requires w != [] && !AuthorityChar(w[0] as int)
    ensures forall s :: ServerEnds(s, w) <==> Onwards(w)
  {
    assert w[0..] == w;
  }

  lemma {:induction false} ServerRun(s: UrlState, w: string)
    requires InServer(s)
    ensures UrlMayEnd(UrlRun(s, w)) <==> ServerEnds(s, w)
    decreases |w|
  {
    hide UrlStep, ServerEnds, AuthorityChar;
    if w == [] {
      ServerEndsEmpty(s);
    } else {
      var n, r, t := w[0] as int, UrlStep(s, w[0]), w[1..];
      UrlTable(s, w[0]);
      AuthorityChars(n);
      if !AuthorityChar(n) {
        NoAuthority(w);
        GraphicStep(w);
        if n == SLASH || n == QUESTION { RestRun(r, t); } else { DeadRun(t); }
      } else if !AtOk(s, w) {
        DeadRun(t);
        NotAt(s, w);
      } else {
        ServerRun(r, t);
        ServerEndsStep(s, r, w);
      }
    }
  }

  lemma ServerEndsEmpty(s: UrlState)
    ensures ServerEnds(s, []) <==> !s.ServerStart?
  {
  }

  lemma NotAt(s: UrlState, w: string)
    requires !AtOk(s, w)
    ensures !ServerEnds(s, w)
  {
  }

  lemma AuthorityChars(n: int)
    ensures AuthorityChar(n) <==> UserinfoChar(n) || n == AT || n == 91 || n == 93
    ensures AuthorityChar(n) ==> n != SLASH && n != QUESTION
    ensures n == SLASH || n == QUESTION || n == HASH ==> !UserinfoChar(n)
  {
  }

  predicate SchemaEnds(w: string) {
    var k := LetterLength(w);
    SlashesAhead(w[k..]) && ServerTarget(w[k + 3..])
  }

  lemma {:induction false} SchemaRun(w: string)
    ensures UrlMayEnd(UrlRun(Schema, w)) <==> SchemaEnds(w)
    decreases |w|
  {
    hide UrlStep, UrlRun, ServerTarget, Letter;
    if w == [] {
      SchemaEmpty();
    } else {
      UrlTable(Schema, w[0]);
      RunStep(Schema, w);
      if Letter(w[0] as int) {
        SchemaRun(w[1..]);
        LetterStep(w);
      } else {
        NoLetter(w);
        if w[0] as int == COLON { SlashesRun(w); } else { DeadRun(w[1..]); }
      }
    }
  }

  lemma SchemaEmpty()
    ensures !UrlMayEnd(UrlRun(Schema, [])) && !SchemaEnds([])
  {
  }

  lemma RunStep(s: UrlState, w: string)
    requires w != []
    ensures UrlRun(s, w) == UrlRun(UrlStep(s, w[0]), w[1..])
  {
  }

  lemma LetterStep(w: string)
    requires w != [] && Letter(w[0] as int)
    ensures LetterLength(w) == 1 + LetterLength(w[1..])
    ensures w[LetterLength(w)..] == w[1..][LetterLength(w[1..])..]
    ensures SchemaEnds(w) <==> SchemaEnds(w[1..])
  {
    var k := LetterLength(w);
    hide ServerTarget, Letter;
    if |w| >= k + 3 { assert w[k + 3..] == w[1..][k + 2..]; }
  }

  lemma NoLetter(w: string)
    requires w != [] && !Letter(w[0] as int)
    ensures SchemaEnds(w) <==> SlashesAhead(w) && ServerTarget(w[3..])
  {
    assert w[0..] == w;
    hide ServerTarget;
  }

  /** The colon and the slashes, and what follows them. */
  lemma SlashesRun(w: string)
    requires w != [] && w[0] as int == COLON
    ensures UrlMayEnd(UrlRun(SchemaSlash, w[1..])) <==> SlashesAhead(w) && ServerTarget(w[3..])
  {
    hide UrlStep, UrlRun, ServerTarget;
    var t := w[1..];
    if t == [] {
      EmptyRun(SchemaSlash);
    } else {
      UrlTable(SchemaSlash, t[0]);
      RunStep(SchemaSlash, t);
      if t[0] as int == SLASH { SecondSlash(w); } else { DeadRun(t[1..]); }
    }
  }

  lemma EmptyRun(s: UrlState)
    ensures UrlRun(s, []) == s
  {
  }

  lemma SecondSlash(w: string)
    requires |w| >= 2 && w[0] as int == COLON && w[1] as int == SLASH
    ensures UrlMayEnd(UrlRun(SchemaSlashSlash, w[1..][1..])) <==> SlashesAhead(w) && ServerTarget(w[3..])
  {
    hide UrlStep, UrlRun, AuthorityLength;
    var t := w[1..][1..];
    assert t == w[2..];
    if t == [] {
      EmptyRun(SchemaSlashSlash);
    } else {
      UrlTable(SchemaSlashSlash, t[0]);
      RunStep(SchemaSlashSlash, t);
      assert t[1..] == w[3..];
      if t[0] as int == SLASH { ServerRun(ServerStart, w[3..]); } else { DeadRun(t[1..]); }
    }
  }

  function Begin(connect: bool): UrlState { if connect then ServerStart else SpacesBefore }

  /** The url automaton accepts exactly these targets. */
  lemma TargetAccepted(w: string, connect: bool)
    ensures UrlMayEnd(UrlRun(Begin(connect), w)) <==> Target(w, connect)
  {
    hide UrlStep, UrlRun, ServerTarget, SchemaEnds, Letter, Graphic;
    if connect {
      ServerRun(ServerStart, w);
      StartIsTarget(w);
    } else if w == [] {
      EmptyRun(SpacesBefore);
    } else {
      var n := w[0] as int;
      UrlTable(SpacesBefore, w[0]);
      RunStep(SpacesBefore, w);
      GraphicStep(w);
      NoLetters(n);
      if n == SLASH || n == STAR {
        RestRun(Path, w[1..]);
      } else if Letter(n) {
        SchemaRun(w[1..]);
        LetterStep(w);
        AbsoluteIs(w);
      } else {
        DeadRun(w[1..]);
      }
    }
  }

  lemma StartIsTarget(w: string)
    ensures ServerEnds(ServerStart, w) <==> ServerTarget(w)
  {
  }

  lemma NoLetters(n: int)
    ensures n == SLASH || n == STAR ==> Visible(n) && !Letter(n)
  {
  }

  lemma AbsoluteIs(w: string)
    requires w != [] && Letter(w[0] as int)
    ensures AbsoluteTarget(w) <==> SchemaEnds(w)
  {
    LetterStep(w);
    hide ServerTarget;
  }

  // ---- urls of RFC 3986 ----

  predicate EachOf(w: string, p: int -> bool) { forall c <- w :: p(c as int) }

  /** Whatever path, query and fragment RFC 3986 allows make a target. */
  lemma RfcTarget(path: string, query: string, fragment: string)
    requires path != [] && path[0] as int == SLASH && EachOf(path, PathChar)
    requires EachOf(query, QueryChar) && EachOf(fragment, QueryChar)
    ensures Target(path, false)
    ensures Target(path + "?" + query, false)
    ensures Target(path + "?" + query + "#" + fragment, false)
  {
  }
}

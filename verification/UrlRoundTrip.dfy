/** Composing a url from its parts and cutting it up again. */
module UrlRoundTrip {

  import opened Wrappers
  import opened HttpTypes
  import opened HttpChars
  import opened UrlAutomaton
  import opened UrlGrammar
  import opened Numbers
  import opened UrlSlices
  import opened UrlParser
  import opened UrlFields

  /** The parts of a url; an empty part is absent. `bracketed` says that the host is an IPv6 address. */
  datatype Parts = Parts(
    schema: string, userinfo: string, host: string, bracketed: bool, port: string,
    path: string, query: string, fragment: string)

  predicate PathText(n: int) { Visible(n) && n != HASH && n != QUESTION }

  predicate QueryText(n: int) { Visible(n) && n != HASH }

  /** Every part has the characters the parser allows there, by their code points. */
  predicate Spelled(p: Parts) {
    && EachOf(p.schema, Letter)
    && EachOf(p.userinfo, UserinfoChar)
    && EachOf(p.host, if p.bracketed then V6Char else NameChar)
    && EachOf(p.port, Decimal) && AllDigits(p.port) && DecValue(p.port) <= 0xffff
    && EachOf(p.path, PathText)
    && EachOf(p.query, QueryText)
    && EachOf(p.fragment, Visible)
  }

  predicate SchemaChar(n: int) { Letter(n) || Decimal(n) || n in {43, 45, 46} }

  predicate RegNameChar(n: int) { Unreserved(n) || SubDelim(n) || n == 37 }

  /** Parts with the characters of RFC 3986 section 3, an IPv6 address between the brackets. */
  predicate RfcParts(p: Parts) {
    && EachOf(p.schema, SchemaChar)
    && EachOf(p.userinfo, UserinfoChar)
    && EachOf(p.host, if p.bracketed then V6Char else RegNameChar)
    && EachOf(p.port, Decimal)
    && EachOf(p.path, PathChar) && EachOf(p.query, QueryChar) && EachOf(p.fragment, QueryChar)
  }

  /** Of these the parser takes the ones whose schema is of letters, whose host, unless an IPv6 address,
      is of letters, digits, full stops and hyphens, and whose port is a 16-bit number. */
  lemma RfcSpelled(p: Parts)
    requires RfcParts(p)
    ensures AllDigits(p.port)
    ensures Spelled(p) <==>
      EachOf(p.schema, Letter) && (!p.bracketed ==> EachOf(p.host, NameChar)) && DecValue(p.port) <= 0xffff
  {
    forall i | 0 <= i < |p.port| ensures IsNum(p.port[i]) { assert p.port[i] in p.port; }
    hide DecValue;
    assert forall n :: PathChar(n) ==> PathText(n);
    assert forall n :: QueryChar(n) ==> QueryText(n) && Visible(n);
  }

  predicate HostForm(p: Parts) { p.host != [] && (p.path != [] ==> p.path[0] == '/') }

  /** A url without a host: a path, or the asterisk that stands for the whole server. */
  predicate OriginForm(p: Parts) {
    && p.userinfo == [] && p.host == [] && !p.bracketed && p.port == []
    && p.path != [] && (p.path[0] == '/' || p.path[0] == '*')
  }

  /** Parts that make a url: absolute, of origin form, or for CONNECT without a schema. */
  predicate Composable(p: Parts, connect: bool) {
    Spelled(p) && if connect then p.schema == [] && HostForm(p) else if p.schema != [] then HostForm(p) else OriginForm(p)
  }

  /** A fragment has a path or a query before it, and does not start with a second number sign. */
  predicate FragmentOk(p: Parts) { p.fragment != [] ==> p.fragment[0] != '#' && (p.path != [] || p.query != []) }

  predicate WellFormed(p: Parts, connect: bool) { Composable(p, connect) && FragmentOk(p) }

  function HostText(p: Parts): string { if p.bracketed then "[" + p.host + "]" else p.host }

  function UserinfoText(p: Parts): string { if p.userinfo == [] then [] else p.userinfo + "@" }

  /** w behind a delimiter, or nothing. */
  function Behind(c: char, w: string): string { if w == [] then [] else [c] + w }

  function Authority(p: Parts): string { UserinfoText(p) + HostText(p) + Behind(':', p.port) }

  function Rest(p: Parts): string { p.path + Behind('?', p.query) + Behind('#', p.fragment) }

  function Head(p: Parts): string { if p.schema == [] then [] else p.schema + "://" }

  function Compose(p: Parts): string { Head(p) + Authority(p) + Rest(p) }

  // ---- pieces of text that stay in one state ----

  /** w leads from s into x and stays there. */
  predicate Into(s: UrlState, w: string, x: UrlState) {
    w != [] && UrlStep(s, w[0]) == x && forall c <- w :: UrlStep(x, c) == x
  }

  lemma {:induction false} IntoRun(s: UrlState, w: string, x: UrlState)
    requires Into(s, w, x)
    ensures UrlRun(s, w) == x
    decreases |w|
  {
    hide UrlStep;
    var n := |w| - 1;
    assert w == w[..n] + [w[n]];
    UrlRunSnoc(s, w[..n], w[n]);
    if n > 0 { IntoRun(s, w[..n], x); }
  }

  lemma IntoMarks(s: UrlState, w: string, x: UrlState)
    requires Into(s, w, x)
    ensures UrlRun(s, w) == x && UrlMarks(s, w) == Repeat(FieldOf(x), |w|)
  {
    hide UrlStep, UrlRun, FieldOf;
    IntoRun(s, w, x);
    forall k | 0 <= k < |w| ensures UrlMarks(s, w)[k] == FieldOf(x) {
      IntoRun(s, w[..k + 1], x);
    }
  }

  lemma {:induction false} UrlRunAppend(s: UrlState, a: string, b: string)
    ensures UrlRun(s, a + b) == UrlRun(UrlRun(s, a), b)
    decreases |b|
  {
    hide UrlStep;
    if b == [] {
      assert a + b == a;
    } else {
      var n := |b| - 1;
      UrlRunAppend(s, a, b[..n]);
      assert a + b == (a + b[..n]) + [b[n]] && b == b[..n] + [b[n]];
      UrlRunSnoc(s, a + b[..n], b[n]);
      UrlRunSnoc(UrlRun(s, a), b[..n], b[n]);
    }
  }

  lemma UrlMarkIs(s: UrlState, buf: string, k: nat)
    requires k < |buf|
    ensures UrlMarks(s, buf)[k] == FieldOf(UrlRun(s, buf[..k + 1]))
  {
    hide UrlRun;
  }

  lemma UrlMarkAppend(s: UrlState, a: string, b: string, k: nat)
    requires k < |a| + |b|
    ensures UrlMarks(s, a + b)[k] == if k < |a| then UrlMarks(s, a)[k] else UrlMarks(UrlRun(s, a), b)[k - |a|]
  {
    hide UrlRun, FieldOf, UrlMarks;
    UrlMarkIs(s, a + b, k);
    if k < |a| {
      UrlMarkIs(s, a, k);
      assert (a + b)[..k + 1] == a[..k + 1];
    } else {
      var i := k - |a|;
      UrlMarkIs(UrlRun(s, a), b, i);
      assert (a + b)[..k + 1] == a + b[..i + 1];
      UrlRunAppend(s, a, b[..i + 1]);
    }
  }

  lemma UrlMarksAppend(s: UrlState, a: string, b: string)
    ensures UrlRun(s, a + b) == UrlRun(UrlRun(s, a), b)
    ensures UrlMarks(s, a + b) == UrlMarks(s, a) + UrlMarks(UrlRun(s, a), b)
  {
    hide UrlRun, UrlMarks;
    UrlRunAppend(s, a, b);
    var l, r := UrlMarks(s, a + b), UrlMarks(s, a) + UrlMarks(UrlRun(s, a), b);
    forall k | 0 <= k < |l| ensures l[k] == r[k] {
      UrlMarkAppend(s, a, b, k);
    }
  }

  lemma {:induction false} HasAtAppend(s: UrlState, a: string, b: string)
    ensures HasAt(s, a + b) <==> HasAt(s, a) || HasAt(UrlRun(s, a), b)
    decreases |b|
  {
    hide UrlStep, UrlRun;
    if b == [] {
      assert a + b == a;
    } else {
      var n := |b| - 1;
      assert (a + b)[..|a + b| - 1] == a + b[..n];
      UrlRunAppend(s, a, b);
      HasAtAppend(s, a, b[..n]);
    }
  }

  /** Behind the server part the state never says that an '@' was read. */
  lemma {:induction false} NoAtLater(s: UrlState, w: string)
    requires UrlRank(s) > 3
    ensures !HasAt(s, w)
    decreases |w|
  {
    if w != [] {
      NoAtLater(s, w[..|w| - 1]);
      UrlRankGrows(s, w, 0, |w|);
      assert w[..|w|] == w && w[..0] == [];
    }
  }

  lemma {:induction false} NoAtInto(s: UrlState, w: string, x: UrlState)
    requires Into(s, w, x) && !x.ServerWithAt?
    ensures !HasAt(s, w)
    decreases |w|
  {
    hide UrlStep;
    IntoRun(s, w, x);
    if |w| > 1 { NoAtInto(s, w[..|w| - 1], x); }
  }

  lemma UrlOne(s: UrlState, c: char)
    ensures UrlRun(s, [c]) == UrlStep(s, c) && UrlMarks(s, [c]) == [FieldOf(UrlStep(s, c))]
    ensures HasAt(s, [c]) <==> UrlStep(s, c).ServerWithAt?
  {
    assert UrlRun(s, [c]) == UrlStep(s, c);
    assert [c][..1] == [c];
    hide UrlRun, UrlStep, FieldOf;
  }

  // ---- the same for the host automaton ----

  predicate HostInto(s: HostState, w: string, x: HostState) {
    w != [] && HostStep(s, w[0]) == x && forall c <- w :: HostStep(x, c) == x
  }

  lemma {:induction false} HostIntoRun(s: HostState, w: string, x: HostState)
    requires HostInto(s, w, x)
    ensures HostRun(s, w) == x
    decreases |w|
  {
    hide HostStep;
    if |w| > 1 { HostIntoRun(s, w[..|w| - 1], x); }
  }

  function AuthorityRead(s: HostState, w: string): (marks: Marks)
    ensures |marks| == |w|
  {
    HostMarks(s, w, 0)
  }

  lemma HostIntoMarks(s: HostState, w: string, x: HostState)
    requires HostInto(s, w, x)
    ensures HostRun(s, w) == x && AuthorityRead(s, w) == Repeat(HostFieldOf(x), |w|)
  {
    hide HostStep, HostRun, HostFieldOf;
    HostIntoRun(s, w, x);
    forall k | 0 <= k < |w| ensures AuthorityRead(s, w)[k] == HostFieldOf(x) {
      HostIntoRun(s, w[0..k + 1], x);
    }
  }

  lemma {:induction false} HostRunAppend(s: HostState, a: string, b: string)
    ensures HostRun(s, a + b) == HostRun(HostRun(s, a), b)
    decreases |b|
  {
    hide HostStep;
    if b == [] {
      assert a + b == a;
    } else {
      var n := |b| - 1;
      HostRunAppend(s, a, b[..n]);
      assert (a + b)[..|a + b| - 1] == a + b[..n];
    }
  }

  lemma AuthorityReadAt(s: HostState, w: string, k: nat)
    requires k < |w|
    ensures AuthorityRead(s, w)[k] == HostFieldOf(HostRun(s, w[..k + 1]))
  {
    hide HostRun, HostFieldOf;
    assert w[0..k + 1] == w[..k + 1];
  }

  lemma HostMarkAppend(s: HostState, a: string, b: string, k: nat)
    requires k < |a| + |b|
    ensures AuthorityRead(s, a + b)[k] == if k < |a| then AuthorityRead(s, a)[k] else AuthorityRead(HostRun(s, a), b)[k - |a|]
  {
    hide HostRun, HostFieldOf, AuthorityRead;
    AuthorityReadAt(s, a + b, k);
    if k < |a| {
      AuthorityReadAt(s, a, k);
      assert (a + b)[..k + 1] == a[..k + 1];
    } else {
      var i := k - |a|;
      AuthorityReadAt(HostRun(s, a), b, i);
      assert (a + b)[..k + 1] == a + b[..i + 1];
      HostRunAppend(s, a, b[..i + 1]);
    }
  }

  lemma HostMarksAppend(s: HostState, a: string, b: string)
    ensures HostRun(s, a + b) == HostRun(HostRun(s, a), b)
    ensures AuthorityRead(s, a + b) == AuthorityRead(s, a) + AuthorityRead(HostRun(s, a), b)
  {
    hide HostRun, AuthorityRead;
    HostRunAppend(s, a, b);
    var l, r := AuthorityRead(s, a + b), AuthorityRead(s, a) + AuthorityRead(HostRun(s, a), b);
    forall k | 0 <= k < |l| ensures l[k] == r[k] {
      HostMarkAppend(s, a, b, k);
    }
  }

  lemma HostOne(s: HostState, c: char)
    ensures HostRun(s, [c]) == HostStep(s, c) && AuthorityRead(s, [c]) == [HostFieldOf(HostStep(s, c))]
  {
    assert [c][..0] == [] && [c][0..1] == [c];
    hide HostStep, HostFieldOf;
  }

  // ---- the marks of a composed url ----

  function Rep(f: Field, w: string): Marks { Repeat(Some(f), |w|) }

  function Gap(n: nat): Marks { Repeat(None, n) }

  function UserinfoMarks(p: Parts): Marks { if p.userinfo == [] then [] else Rep(UserinfoField, p.userinfo) + Gap(1) }

  function HostTextMarks(p: Parts): Marks {
    if p.bracketed then Gap(1) + Rep(HostField, p.host) + Gap(1) else Rep(HostField, p.host)
  }

  function BehindMarks(f: Field, w: string): Marks { if w == [] then [] else Gap(1) + Rep(f, w) }

  function HeadMarks(p: Parts): Marks { if p.schema == [] then [] else Rep(SchemaField, p.schema) + Gap(3) }

  function AuthorityMarks(p: Parts): Marks { UserinfoMarks(p) + HostTextMarks(p) + BehindMarks(PortField, p.port) }

  function RestMarks(p: Parts): Marks {
    Rep(PathField, p.path) + BehindMarks(QueryField, p.query) + BehindMarks(FragmentField, p.fragment)
  }

  // ---- the second stage on an authority ----

  /** For every state and every character, where the host automaton goes. */
  lemma HostTable(s: HostState, c: char)
    ensures var n, r := c as int, HostStep(s, c);
      match s
      case UserinfoStart => r == if n == AT then HostStart else if UserinfoChar(n) then Userinfo else HostDead
      case Userinfo => r == if n == AT then HostStart else if UserinfoChar(n) then Userinfo else HostDead
      case HostStart => r == if n == 91 then V6Start else if NameChar(n) then HostName else HostDead
      case HostName => r == if n == COLON then PortStart else if NameChar(n) then HostName else HostDead
      case V6Start => r == if V6Char(n) then V6 else HostDead
      case V6 => r == if n == 93 then V6End else if V6Char(n) then V6 else HostDead
      case V6End => r == if n == COLON then PortStart else HostDead
      case PortStart => r == if Decimal(n) then PortDigits else HostDead
      case PortDigits => r == if Decimal(n) then PortDigits else HostDead
      case HostDead => r == HostDead
  {
  }

  lemma UserinfoStays(c: char)
    requires IsUserinfoChar(c)
    ensures HostStep(UserinfoStart, c) == Userinfo && HostStep(Userinfo, c) == Userinfo
  {
  }

  lemma UserinfoHost(p: Parts)
    requires Spelled(p)
    ensures var b := HostBegin(p.userinfo != []); var w := UserinfoText(p);
      HostRun(b, w) == HostStart && AuthorityRead(b, w) == UserinfoMarks(p)
  {
    if p.userinfo != [] {
      forall c | c in p.userinfo
        ensures HostStep(UserinfoStart, c) == Userinfo && HostStep(Userinfo, c) == Userinfo
      {
        UserinfoStays(c);
      }
      assert HostStep(Userinfo, '@') == HostStart;
      hide HostStep;
      HostIntoMarks(UserinfoStart, p.userinfo, Userinfo);
      HostOne(Userinfo, '@');
      hide HostRun, HostMarks, AuthorityRead;
      HostMarksAppend(UserinfoStart, p.userinfo, "@");
      assert Gap(1) == [None];
    }
  }

  lemma BracketedHost(p: Parts)
    requires Spelled(p) && p.host != [] && p.bracketed
    ensures HostRun(HostStart, HostText(p)) == V6End && AuthorityRead(HostStart, HostText(p)) == HostTextMarks(p)
  {
    hide HostRun, AuthorityRead, HostInto, HostStep, Spelled;
    BracketedInto(p);
    HostOne(HostStart, '[');
    HostOne(V6, ']');
    HostIntoMarks(V6Start, p.host, V6);
    HostMarksAppend(HostStart, "[", p.host);
    HostMarksAppend(HostStart, "[" + p.host, "]");
    assert Gap(1) == [None];
  }

  lemma BracketedInto(p: Parts)
    requires Spelled(p) && p.host != [] && p.bracketed
    ensures HostInto(V6Start, p.host, V6) && HostStep(HostStart, '[') == V6Start && HostStep(V6, ']') == V6End
  {
    assert p.host[0] in p.host && HostStep(HostStart, '[') == V6Start && HostStep(V6, ']') == V6End;
    hide HostStep, Spelled;
    forall c | c in p.host ensures HostStep(V6Start, c) == V6 == HostStep(V6, c) { V6Stays(p, c); }
  }

  lemma V6Stays(p: Parts, c: char)
    requires Spelled(p) && p.bracketed && c in p.host
    ensures HostStep(V6Start, c) == V6 == HostStep(V6, c)
  {
    assert IsV6Char(c);
  }

  lemma NameStays(p: Parts, c: char)
    requires Spelled(p) && !p.bracketed && c in p.host
    ensures HostStep(HostStart, c) == HostName == HostStep(HostName, c)
  {
    assert IsHostChar(c);
  }

  lemma HostTextHost(p: Parts)
    requires Spelled(p) && p.host != []
    ensures HostRun(HostStart, HostText(p)) == (if p.bracketed then V6End else HostName)
    ensures AuthorityRead(HostStart, HostText(p)) == HostTextMarks(p)
  {
    hide HostRun, AuthorityRead, HostStep, Spelled;
    if p.bracketed {
      BracketedHost(p);
    } else {
      forall c | c in p.host ensures HostStep(HostStart, c) == HostName == HostStep(HostName, c) { NameStays(p, c); }
      HostIntoMarks(HostStart, p.host, HostName);
    }
  }

  lemma PortHost(p: Parts, s: HostState)
    requires Spelled(p) && (s == HostName || s == V6End)
    ensures var w := Behind(':', p.port);
      HostMayEnd(HostRun(s, w)) && AuthorityRead(s, w) == BehindMarks(PortField, p.port)
  {
    if p.port != [] {
      assert HostInto(PortStart, p.port, PortDigits);
      HostOne(s, ':');
      assert HostStep(s, ':') == PortStart;
      hide HostRun, HostMarks, AuthorityRead, HostInto, HostStep;
      HostIntoMarks(PortStart, p.port, PortDigits);
      HostMarksAppend(s, ":", p.port);
      assert Gap(1) == [None];
    }
  }

  lemma AuthorityHost(p: Parts)
    requires Spelled(p) && p.host != []
    ensures HostMayEnd(HostRun(HostBegin(p.userinfo != []), Authority(p)))
    ensures AuthorityRead(HostBegin(p.userinfo != []), Authority(p)) == AuthorityMarks(p)
  {
    hide Spelled, HostRun, AuthorityRead, HostText, HostTextMarks, UserinfoMarks, BehindMarks, UserinfoText, HostMayEnd;
    var b, w := HostBegin(p.userinfo != []), UserinfoText(p);
    UserinfoHost(p);
    HostTextHost(p);
    PortHost(p, if p.bracketed then V6End else HostName);
    HostMarksAppend(b, w, HostText(p));
    HostMarksAppend(b, w + HostText(p), Behind(':', p.port));
  }

  // ---- the first stage on the whole ----

  lemma ServerChar(c: char)
    requires IsUserinfoChar(c) || c == '[' || c == ']'
    ensures UrlStep(ServerStart, c) == Server && UrlStep(Server, c) == Server && UrlStep(ServerWithAt, c) == Server
  {
  }

  predicate ServerText(w: string) { forall c <- w :: IsUserinfoChar(c) || c == '[' || c == ']' }

  lemma ServerInto(s: UrlState, w: string)
    requires w != [] && ServerText(w) && (s == ServerStart || s == ServerWithAt)
    ensures UrlRun(s, w) == Server && UrlMarks(s, w) == Rep(HostField, w) && !HasAt(s, w)
  {
    forall c | c in w ensures UrlStep(s, c) == Server && UrlStep(Server, c) == Server { ServerChar(c); }
    hide UrlStep;
    IntoMarks(s, w, Server);
    NoAtInto(s, w, Server);
    hide UrlRun, UrlMarks;
  }

  function HostAndPort(p: Parts): string { HostText(p) + Behind(':', p.port) }

  lemma HostAndPortText(p: Parts)
    requires Spelled(p) && p.host != []
    ensures HostAndPort(p) != [] && ServerText(HostAndPort(p))
  {
    assert ServerText(p.host) by {
      forall c | c in p.host ensures IsUserinfoChar(c) { assert IsV6Char(c) || IsHostChar(c); }
    }
    assert ServerText(p.port) by {
      forall c | c in p.port ensures IsUserinfoChar(c) { assert IsNum(c); }
    }
    assert ServerText(":") && ServerText("[") && ServerText("]");
    hide IsUserinfoChar;
  }

  lemma UserinfoServer(u: string, w: string)
    requires u != [] && ServerText(u) && w != [] && ServerText(w)
    ensures var all := u + "@" + w;
      UrlRun(ServerStart, all) == Server && UrlMarks(ServerStart, all) == Rep(HostField, all) && HasAt(ServerStart, all)
  {
    assert UrlStep(Server, '@') == ServerWithAt;
    hide ServerText, UrlRun, UrlMarks, HasAt, UrlStep;
    ServerInto(ServerStart, u);
    UrlOne(Server, '@');
    ServerInto(ServerWithAt, w);
    UrlMarksAppend(ServerStart, u, "@");
    UrlMarksAppend(ServerStart, u + "@", w);
    HasAtAppend(ServerStart, u, "@");
    HasAtAppend(ServerStart, u + "@", w);
  }

  lemma UserinfoIsServer(p: Parts)
    requires Spelled(p)
    ensures ServerText(p.userinfo)
  {
  }

  lemma AuthorityUrl(p: Parts)
    requires Spelled(p) && p.host != []
    ensures UrlRun(ServerStart, Authority(p)) == Server
    ensures UrlMarks(ServerStart, Authority(p)) == Rep(HostField, Authority(p))
    ensures HasAt(ServerStart, Authority(p)) <==> p.userinfo != []
  {
    hide UrlRun, UrlMarks, HasAt, Spelled, ServerText, HostText, Rep;
    HostAndPortText(p);
    UserinfoIsServer(p);
    var w := HostAndPort(p);
    if p.userinfo == [] {
      assert Authority(p) == w;
      ServerInto(ServerStart, w);
    } else {
      assert Authority(p) == p.userinfo + "@" + w;
      UserinfoServer(p.userinfo, w);
    }
  }

  lemma UrlChars(c: char)
    requires IsUrlChar(c)
    ensures UrlStep(Path, c) == Path && UrlStep(QueryStart, c) == Query && UrlStep(Query, c) == Query
    ensures UrlStep(FragmentStart, c) == Fragment && UrlStep(Fragment, c) == Fragment
  {
  }

  lemma PathUrl(p: Parts, s: UrlState)
    requires EachOf(p.path, PathText) && (p.path != [] ==> UrlStep(s, p.path[0]) == Path)
    ensures UrlRun(s, p.path) == (if p.path == [] then s else Path)
    ensures UrlMarks(s, p.path) == Rep(PathField, p.path) && !HasAt(s, p.path)
  {
    if p.path != [] {
      forall c | c in p.path ensures UrlStep(Path, c) == Path { UrlChars(c); }
      hide UrlStep;
      IntoMarks(s, p.path, Path);
      NoAtInto(s, p.path, Path);
    }
  }

  lemma QueryUrl(p: Parts, s: UrlState)
    requires Spelled(p) && p.query != [] && (s == Server || s == Path)
    ensures var w := "?" + p.query;
      UrlRun(s, w) == Query && UrlMarks(s, w) == Gap(1) + Rep(QueryField, p.query) && !HasAt(s, w)
  {
    forall c | c in p.query ensures UrlStep(QueryStart, c) == Query && UrlStep(Query, c) == Query {
      if IsUrlChar(c) { UrlChars(c); }
    }
    assert UrlStep(s, '?') == QueryStart;
    hide UrlStep;
    IntoMarks(QueryStart, p.query, Query);
    UrlOne(s, '?');
    hide UrlRun, UrlMarks, HasAt;
    UrlMarksAppend(s, "?", p.query);
    HasAtAppend(s, "?", p.query);
    NoAtLater(QueryStart, p.query);
    assert Gap(1) == [None];
  }

  lemma FragmentUrl(p: Parts, s: UrlState)
    requires Spelled(p) && p.fragment != [] && p.fragment[0] != '#' && (s == Path || s == Query)
    ensures var w := "#" + p.fragment;
      UrlRun(s, w) == Fragment && UrlMarks(s, w) == Gap(1) + Rep(FragmentField, p.fragment) && !HasAt(s, w)
  {
    forall c | c in p.fragment
      ensures UrlStep(Fragment, c) == Fragment && (c != '#' ==> UrlStep(FragmentStart, c) == Fragment)
    {
      if IsUrlChar(c) { UrlChars(c); }
    }
    assert UrlStep(s, '#') == FragmentStart;
    hide UrlStep;
    IntoMarks(FragmentStart, p.fragment, Fragment);
    UrlOne(s, '#');
    hide UrlRun, UrlMarks, HasAt;
    UrlMarksAppend(s, "#", p.fragment);
    HasAtAppend(s, "#", p.fragment);
    NoAtLater(FragmentStart, p.fragment);
    assert Gap(1) == [None];
  }

  /** The state in front of the path. */
  function ServerState(p: Parts): UrlState { if p.host == [] then SpacesBefore else Server }

  lemma PathStarts(p: Parts, connect: bool)
    requires Composable(p, connect)
    ensures (p.path != [] ==> UrlStep(ServerState(p), p.path[0]) == Path) && (p.path == [] ==> ServerState(p) == Server)
  {
    hide Spelled;
  }

  /** The state behind the whole url. */
  function EndState(p: Parts): UrlState {
    if p.fragment != [] then Fragment else if p.query != [] then Query else if p.path != [] then Path else ServerState(p)
  }

  lemma RestUrl(p: Parts, connect: bool)
    requires WellFormed(p, connect)
    ensures var s := ServerState(p);
      UrlRun(s, Rest(p)) == EndState(p) && UrlMarks(s, Rest(p)) == RestMarks(p) && !HasAt(s, Rest(p))
  {
    var s, q, f := ServerState(p), Behind('?', p.query), Behind('#', p.fragment);
    PathStarts(p, connect);
    hide UrlRun, UrlMarks, HasAt, Rep, Gap, UrlStep;
    PathUrl(p, s);
    hide HostForm, OriginForm, ServerState;
    var s1 := if p.path == [] then s else Path;
    var s2 := if p.query == [] then s1 else Query;
    StaysPut(s1);
    StaysPut(s2);
    if p.query != [] { QueryUrl(p, s1); }
    if p.fragment != [] { FragmentUrl(p, s2); }
    hide Spelled;
    UrlMarksAppend(s, p.path, q);
    UrlMarksAppend(s, p.path + q, f);
    HasAtAppend(s, p.path, q);
    HasAtAppend(s, p.path + q, f);
  }

  lemma StaysPut(s: UrlState)
    ensures UrlRun(s, []) == s && UrlMarks(s, []) == [] && !HasAt(s, [])
  {
  }

  lemma SlashesUrl()
    ensures UrlRun(UrlState.Schema, "://") == ServerStart && UrlMarks(UrlState.Schema, "://") == Gap(3)
    ensures !HasAt(UrlState.Schema, "://")
  {
    UrlOne(UrlState.Schema, ':');
    UrlOne(SchemaSlash, '/');
    UrlOne(SchemaSlashSlash, '/');
    assert UrlStep(UrlState.Schema, ':') == SchemaSlash && UrlStep(SchemaSlash, '/') == SchemaSlashSlash;
    assert UrlStep(SchemaSlashSlash, '/') == ServerStart;
    hide UrlRun, UrlMarks, HasAt, UrlStep;
    UrlMarksAppend(UrlState.Schema, ":", "/");
    UrlMarksAppend(UrlState.Schema, ":" + "/", "/");
    HasAtAppend(UrlState.Schema, ":", "/");
    HasAtAppend(UrlState.Schema, ":" + "/", "/");
    assert ":" + "/" + "/" == "://";
  }

  lemma SchemaUrl(p: Parts)
    requires Spelled(p) && p.schema != []
    ensures var w := p.schema + "://";
      UrlRun(SpacesBefore, w) == ServerStart && UrlMarks(SpacesBefore, w) == Rep(SchemaField, p.schema) + Gap(3)
      && !HasAt(SpacesBefore, w)
  {
    forall c | c in p.schema ensures UrlStep(SpacesBefore, c) == UrlState.Schema == UrlStep(UrlState.Schema, c) {
      assert IsAlpha(c);
    }
    assert Into(SpacesBefore, p.schema, UrlState.Schema);
    hide UrlRun, UrlMarks, HasAt, Spelled, UrlStep, Into, Gap;
    IntoMarks(SpacesBefore, p.schema, UrlState.Schema);
    NoAtInto(SpacesBefore, p.schema, UrlState.Schema);
    SlashesUrl();
    UrlMarksAppend(SpacesBefore, p.schema, "://");
    HasAtAppend(SpacesBefore, p.schema, "://");
  }

  lemma HeadUrl(p: Parts, connect: bool)
    requires Composable(p, connect)
    ensures var s := Start(connect);
      && UrlRun(s, Head(p)) == (if p.host == [] then SpacesBefore else ServerStart)
      && UrlMarks(s, Head(p)) == HeadMarks(p) && !HasAt(s, Head(p))
  {
    hide UrlRun, UrlMarks, HasAt, Spelled, Rep, Gap;
    if p.schema == [] { StaysPut(Start(connect)); } else { SchemaUrl(p); }
  }

  lemma ServerUrl(p: Parts, connect: bool)
    requires Composable(p, connect)
    ensures var s := if p.host == [] then SpacesBefore else ServerStart;
      && UrlRun(s, Authority(p)) == ServerState(p) && UrlMarks(s, Authority(p)) == Rep(HostField, Authority(p))
      && (HasAt(s, Authority(p)) <==> p.userinfo != [])
  {
    hide UrlRun, UrlMarks, HasAt, Spelled;
    if p.host == [] {
      assert Authority(p) == [];
      StaysPut(SpacesBefore);
    } else {
      AuthorityUrl(p);
    }
  }

  /** The first stage accepts a composed url and finds its authority. */
  lemma ComposeUrl(p: Parts, connect: bool)
    requires WellFormed(p, connect)
    ensures var s := Start(connect);
      && UrlRun(s, Compose(p)) == EndState(p) && (HasAt(s, Compose(p)) <==> p.userinfo != [])
      && UrlMarks(s, Compose(p)) == HeadMarks(p) + Rep(HostField, Authority(p)) + RestMarks(p)
  {
    hide UrlRun, UrlMarks, HasAt, Spelled, HostForm, OriginForm, FragmentOk, Rep, HeadMarks, Head, Authority, Rest, RestMarks;
    var s, w := Start(connect), Head(p);
    HeadUrl(p, connect);
    ServerUrl(p, connect);
    RestUrl(p, connect);
    UrlMarksAppend(s, w, Authority(p));
    UrlMarksAppend(s, w + Authority(p), Rest(p));
    HasAtAppend(s, w, Authority(p));
    HasAtAppend(s, w + Authority(p), Rest(p));
  }

  // ---- where the parts are ----

  /** `part` stands in the text at `off`, and there and nowhere else the marks say f. */
  predicate StandsAt(text: string, marks: Marks, f: Field, part: string, off: nat) {
    && |marks| == |text| && off + |part| <= |text|
    && text[off..off + |part|] == part
    && forall k | 0 <= k < |marks| :: marks[k] == Some(f) <==> off <= k < off + |part|
  }

  ghost predicate Stands(text: string, marks: Marks, f: Field, part: string) {
    exists off: nat :: StandsAt(text, marks, f, part, off)
  }

  lemma StandsWhole(f: Field, w: string)
    ensures Stands(w, Rep(f, w), f, w)
  {
    assert StandsAt(w, Rep(f, w), f, w, 0);
  }

  lemma StandsNowhere(text: string, marks: Marks, f: Field)
    requires |marks| == |text| && !Has(marks, f)
    ensures Stands(text, marks, f, [])
  {
    assert StandsAt(text, marks, f, [], 0);
  }

  /** Text without f before and behind does not matter. */
  lemma StandsWithin(text: string, marks: Marks, f: Field, part: string, t1: string, m1: Marks, t2: string, m2: Marks)
    requires Stands(text, marks, f, part) && |t1| == |m1| && |t2| == |m2| && !Has(m1, f) && !Has(m2, f)
    ensures Stands(t1 + text + t2, m1 + marks + m2, f, part)
  {
    var off: nat :| StandsAt(text, marks, f, part, off);
    var t, m := t1 + text + t2, m1 + marks + m2;
    assert t[|t1| + off..|t1| + off + |part|] == text[off..off + |part|];
    forall k | 0 <= k < |m| ensures m[k] == Some(f) <==> |t1| + off <= k < |t1| + off + |part| {
      if k < |m1| { assert m[k] == m1[k]; }
      else if k < |m1| + |marks| { assert m[k] == marks[k - |m1|]; }
      else { assert m[k] == m2[k - |m1| - |marks|]; }
    }
    assert StandsAt(t, m, f, part, |t1| + off);
  }

  /** So a field is set exactly if its part is there, and then its slice is the part. */
  lemma StandsSlice(text: string, marks: Marks, m: map<Field, Slice>, f: Field, part: string)
    requires IsSlices(marks, m) && Stands(text, marks, f, part)
    ensures f in m <==> part != []
    ensures f in m ==> InBounds(text, m[f]) && text[m[f].off..m[f].off + m[f].len] == part
  {
    var off: nat :| StandsAt(text, marks, f, part, off);
    if part != [] {
      assert marks[off] == Some(f) && marks[off + |part| - 1] == Some(f);
      assert f in m && In(m[f], off) && In(m[f], off + |part| - 1);
    }
    if f in m {
      assert In(m[f], m[f].off) && In(m[f], m[f].off + m[f].len - 1);
      assert marks[m[f].off] == Some(f) && marks[m[f].off + m[f].len - 1] == Some(f);
    }
  }

  function PartOf(p: Parts, f: Field): string {
    match f
    case SchemaField => p.schema
    case UserinfoField => p.userinfo
    case HostField => p.host
    case PortField => p.port
    case PathField => p.path
    case QueryField => p.query
    case FragmentField => p.fragment
  }

  lemma UserinfoStands(p: Parts)
    ensures Stands(UserinfoText(p), UserinfoMarks(p), UserinfoField, p.userinfo)
  {
    if p.userinfo == [] {
      StandsNowhere([], [], UserinfoField);
    } else {
      StandsWhole(UserinfoField, p.userinfo);
      StandsWithin(p.userinfo, Rep(UserinfoField, p.userinfo), UserinfoField, p.userinfo, [], [], "@", Gap(1));
      assert [] + p.userinfo + "@" == p.userinfo + "@";
      assert [] + Rep(UserinfoField, p.userinfo) + Gap(1) == UserinfoMarks(p);
    }
  }

  lemma HostTextStands(p: Parts)
    ensures Stands(HostText(p), HostTextMarks(p), HostField, p.host)
  {
    StandsWhole(HostField, p.host);
    if p.bracketed { StandsWithin(p.host, Rep(HostField, p.host), HostField, p.host, "[", Gap(1), "]", Gap(1)); }
  }

  lemma BehindStands(f: Field, w: string, c: char)
    ensures Stands(Behind(c, w), BehindMarks(f, w), f, w)
  {
    if w == [] {
      StandsNowhere([], [], f);
    } else {
      StandsWhole(f, w);
      StandsWithin(w, Rep(f, w), f, w, [c], Gap(1), [], []);
      assert [c] + w + [] == [c] + w;
      assert Gap(1) + Rep(f, w) + [] == Gap(1) + Rep(f, w);
    }
  }

  /** Which fields the marks of a piece mention, at most. */
  lemma PieceFields(p: Parts, f: Field)
    ensures |UserinfoMarks(p)| == |UserinfoText(p)| && (Has(UserinfoMarks(p), f) ==> f == UserinfoField)
    ensures |HostTextMarks(p)| == |HostText(p)| && (Has(HostTextMarks(p), f) ==> f == HostField)
    ensures |HeadMarks(p)| == |Head(p)| && (Has(HeadMarks(p), f) ==> f == SchemaField)
    ensures Has(Rep(PathField, p.path), f) ==> f == PathField
  {
  }

  lemma HeadStands(p: Parts)
    ensures Stands(Head(p), HeadMarks(p), SchemaField, p.schema)
  {
    if p.schema == [] {
      StandsNowhere([], [], SchemaField);
    } else {
      var m := Rep(SchemaField, p.schema);
      StandsWhole(SchemaField, p.schema);
      StandsWithin(p.schema, m, SchemaField, p.schema, [], [], "://", Gap(3));
      assert [] + p.schema + "://" == p.schema + "://" && [] + m + Gap(3) == m + Gap(3);
    }
  }

  lemma BehindFields(c: char, g: Field, w: string, f: Field)
    ensures |BehindMarks(g, w)| == |Behind(c, w)| && (Has(BehindMarks(g, w), f) ==> f == g)
  {
  }

  lemma HasAppend(a: Marks, b: Marks, f: Field)
    ensures Has(a + b, f) <==> Has(a, f) || Has(b, f)
  {
  }

  /** Three pieces in a row, f in at most one of them. */
  lemma StandsInThree(t1: string, m1: Marks, t2: string, m2: Marks, t3: string, m3: Marks, f: Field, part: string)
    requires |t1| == |m1| && |t2| == |m2| && |t3| == |m3|
    requires || (Stands(t1, m1, f, part) && !Has(m2, f) && !Has(m3, f))
             || (Stands(t2, m2, f, part) && !Has(m1, f) && !Has(m3, f))
             || (Stands(t3, m3, f, part) && !Has(m1, f) && !Has(m2, f))
    ensures Stands(t1 + t2 + t3, m1 + m2 + m3, f, part)
  {
    assert !Has([], f);
    hide Stands, Has;
    if Stands(t1, m1, f, part) && !Has(m2, f) && !Has(m3, f) {
      HasAppend(m2, m3, f);
      StandsWithin(t1, m1, f, part, [], [], t2 + t3, m2 + m3);
      assert [] + t1 + (t2 + t3) == t1 + t2 + t3;
      assert [] + m1 + (m2 + m3) == m1 + m2 + m3;
    } else if Stands(t2, m2, f, part) && !Has(m1, f) && !Has(m3, f) {
      StandsWithin(t2, m2, f, part, t1, m1, t3, m3);
    } else {
      HasAppend(m1, m2, f);
      StandsWithin(t3, m3, f, part, t1 + t2, m1 + m2, [], []);
      assert t1 + t2 + t3 + [] == t1 + t2 + t3;
      assert m1 + m2 + m3 + [] == m1 + m2 + m3;
    }
  }

  lemma AuthorityStands(p: Parts, f: Field)
    requires StageTwo(f)
    ensures Stands(Authority(p), AuthorityMarks(p), f, PartOf(p, f))
  {
    PieceFields(p, f);
    BehindFields(':', PortField, p.port, f);
    UserinfoStands(p);
    HostTextStands(p);
    BehindStands(PortField, p.port, ':');
    hide Stands, Has, UserinfoMarks, HostTextMarks, HostText, BehindMarks;
    StandsInThree(UserinfoText(p), UserinfoMarks(p), HostText(p), HostTextMarks(p),
      Behind(':', p.port), BehindMarks(PortField, p.port), f, PartOf(p, f));
  }

  lemma RestStands(p: Parts, f: Field)
    requires StageOne(f) && f != SchemaField && f != HostField
    ensures Stands(Rest(p), RestMarks(p), f, PartOf(p, f))
  {
    PieceFields(p, f);
    BehindFields('?', QueryField, p.query, f);
    BehindFields('#', FragmentField, p.fragment, f);
    StandsWhole(PathField, p.path);
    BehindStands(QueryField, p.query, '?');
    BehindStands(FragmentField, p.fragment, '#');
    assert |Rep(PathField, p.path)| == |p.path|;
    hide Stands, Has, Rep, BehindMarks, RestMarks;
    StandsInThree(p.path, Rep(PathField, p.path), Behind('?', p.query), BehindMarks(QueryField, p.query),
      Behind('#', p.fragment), BehindMarks(FragmentField, p.fragment), f, PartOf(p, f));
  }

  lemma AuthorityFields(p: Parts, f: Field)
    ensures |AuthorityMarks(p)| == |Authority(p)| && (Has(AuthorityMarks(p), f) ==> StageTwo(f))
  {
    PieceFields(p, f);
    BehindFields(':', PortField, p.port, f);
    hide UserinfoMarks, HostTextMarks, HostText, BehindMarks;
  }

  lemma RestFields(p: Parts, f: Field)
    ensures |RestMarks(p)| == |Rest(p)|
    ensures Has(RestMarks(p), f) ==> StageOne(f) && f != SchemaField && f != HostField
  {
    PieceFields(p, f);
    BehindFields('?', QueryField, p.query, f);
    BehindFields('#', FragmentField, p.fragment, f);
    assert |Rep(PathField, p.path)| == |p.path|;
    hide Rep, BehindMarks, RestMarks;
  }

  /** Every part stands in the composed url, where the marks say so. */
  lemma ComposeStands(p: Parts, f: Field)
    ensures Stands(Compose(p), HeadMarks(p) + AuthorityMarks(p) + RestMarks(p), f, PartOf(p, f))
  {
    PieceFields(p, f);
    AuthorityFields(p, f);
    RestFields(p, f);
    hide Stands, Has, Head, HeadMarks, Authority, AuthorityMarks, Rest, RestMarks, UserinfoMarks, HostTextMarks, Rep;
    if f == SchemaField {
      HeadStands(p);
    } else if StageTwo(f) {
      AuthorityStands(p, f);
    } else {
      RestStands(p, f);
    }
    StandsInThree(Head(p), HeadMarks(p), Authority(p), AuthorityMarks(p), Rest(p), RestMarks(p), f, PartOf(p, f));
  }

  // ---- parsing the composed url ----

  /** Where a field is marked in three pieces of which only the middle one has it. */
  lemma MarkedInMiddle(l: Marks, head: Marks, mid: Marks, rest: Marks, f: Field, k: nat)
    requires l == head + mid + rest && k < |l|
    requires !Has(head, f) && !Has(rest, f) && forall i :: 0 <= i < |mid| ==> mid[i] == Some(f)
    ensures l[k] == Some(f) <==> |head| <= k < |head| + |mid|
  {
    if k < |head| { assert l[k] == head[k]; }
    else if k < |head| + |mid| { assert l[k] == mid[k - |head|]; }
    else { assert l[k] == rest[k - |head| - |mid|]; }
  }

  lemma ComposeHostMarks(p: Parts, connect: bool, k: nat)
    requires WellFormed(p, connect) && k < |Compose(p)|
    ensures UrlMarks(Start(connect), Compose(p))[k] == Some(HostField) <==> |Head(p)| <= k < |Head(p)| + |Authority(p)|
  {
    hide WellFormed, RestMarks, Authority, UrlMarks, Compose, UrlRun, HasAt, Has, Head, HeadMarks;
    ComposeUrl(p, connect);
    RestFields(p, HostField);
    PieceFields(p, HostField);
    MarkedInMiddle(UrlMarks(Start(connect), Compose(p)), HeadMarks(p), Rep(HostField, Authority(p)), RestMarks(p), HostField, k);
  }

  lemma AuthorityNonempty(p: Parts, connect: bool)
    requires Composable(p, connect)
    ensures Authority(p) == [] <==> p.host == []
  {
    hide Spelled;
  }

  lemma ComposeHostAt(p: Parts, connect: bool)
    requires WellFormed(p, connect)
    ensures var h := HostAt(Compose(p), connect); h.len == |Authority(p)| && (p.host != [] ==> h.off == |Head(p)|)
  {
    AuthorityNonempty(p, connect);
    hide WellFormed, Authority, UrlMarks, Exact, IsSlices, Compose, StageOne, Head;
    var u, lo := UrlMarks(Start(connect), Compose(p)), |Head(p)|;
    ComposeAuthority(p);
    forall k | 0 <= k < |u| ensures u[k] == Some(HostField) <==> lo <= k < lo + |Authority(p)| {
      ComposeHostMarks(p, connect, k);
    }
    UrlExact(Compose(p), connect);
    if p.host == [] {
      NoSlice(u, Exact(u), HostField);
    } else {
      OnlySlice(u, Exact(u), HostField, lo, |Authority(p)|);
    }
  }

  lemma NoSlice(marks: Marks, m: map<Field, Slice>, f: Field)
    requires IsSlices(marks, m) && forall k | 0 <= k < |marks| :: marks[k] != Some(f)
    ensures f !in m
  {
    forall g | g in m ensures marks[m[g].off] == Some(g) { assert In(m[g], m[g].off); }
  }

  lemma OnlySlice(marks: Marks, m: map<Field, Slice>, f: Field, off: nat, len: nat)
    requires IsSlices(marks, m) && len > 0 && off + len <= |marks|
    requires forall k | 0 <= k < |marks| :: marks[k] == Some(f) <==> off <= k < off + len
    ensures f in m && m[f] == Slice(off, len)
  {
    assert marks[off] == Some(f) && marks[off + len - 1] == Some(f);
    assert In(m[f], m[f].off) && In(m[f], m[f].off + m[f].len - 1);
    assert marks[m[f].off] == Some(f) && marks[m[f].off + m[f].len - 1] == Some(f);
  }

  lemma ComposeAuthority(p: Parts)
    ensures var lo := |Head(p)|;
      lo + |Authority(p)| <= |Compose(p)| && Compose(p)[lo..lo + |Authority(p)|] == Authority(p)
  {
    hide Authority, Rest, Head;
  }

  /** Within the host part the marks are those of the host automaton alone. */
  lemma HostMarkIn(text: string, connect: bool, auth: string, k: nat)
    requires var h := HostAt(text, connect);
      && InBounds(text, h) && h.len == |auth| && text[h.off..h.off + h.len] == auth && In(h, k)
    ensures FieldMarks(text, connect)[k] == AuthorityRead(HostBegin(HasAt(Start(connect), text)), auth)[k - HostAt(text, connect).off]
  {
    hide FieldMarks, HostRun, HasAt, HostAt, HostFieldOf, HostStep, UrlMarks, HostBegin;
    var lo := HostAt(text, connect).off;
    InHostPart(text, connect, k);
    assert text[lo..k + 1] == auth[0..k + 1 - lo];
  }

  /** The first stage finds the authority as the host part, and whether it has an '@'. */
  lemma ComposeHostPart(p: Parts, connect: bool)
    requires WellFormed(p, connect) && p.host != []
    ensures var text, auth := Compose(p), Authority(p);
      && HostAt(text, connect) == Slice(|Head(p)|, |auth|) && InBounds(text, HostAt(text, connect))
      && text[|Head(p)|..|Head(p)| + |auth|] == auth
      && (HasAt(Start(connect), text) <==> p.userinfo != [])
  {
    hide WellFormed, Authority, Compose, HasAt, HostAt, UrlMarks, UrlRun, Head, HeadMarks, RestMarks, Rep, EndState;
    ComposeAuthority(p);
    ComposeUrl(p, connect);
    ComposeHostAt(p, connect);
  }

  lemma AuthorityOk(p: Parts, connect: bool)
    requires WellFormed(p, connect) && Authority(p) != []
    ensures Spelled(p) && p.host != [] && |AuthorityMarks(p)| == |Authority(p)|
  {
    hide Authority, AuthorityMarks, Spelled, FragmentOk, Has;
    AuthorityNonempty(p, connect);
    AuthorityFields(p, HostField);
  }

  lemma AuthorityMarkAt(p: Parts, connect: bool, k: nat)
    requires WellFormed(p, connect) && |Head(p)| <= k < |Head(p)| + |Authority(p)|
    ensures k < |Compose(p)| && |AuthorityMarks(p)| == |Authority(p)|
    ensures FieldMarks(Compose(p), connect)[k] == AuthorityMarks(p)[k - |Head(p)|]
  {
    hide FieldMarks, Authority, AuthorityMarks, Compose, HostRun, HasAt, HostAt, AuthorityRead, HostMayEnd, HostBegin,
         Head, WellFormed, Spelled;
    AuthorityOk(p, connect);
    ComposeHostPart(p, connect);
    AuthorityHost(p);
    HostMarkIn(Compose(p), connect, Authority(p), k);
  }

  lemma OuterMarkAt(p: Parts, connect: bool, k: nat)
    requires WellFormed(p, connect) && k < |Compose(p)| && !(|Head(p)| <= k < |Head(p)| + |Authority(p)|)
    ensures FieldMarks(Compose(p), connect)[k] == UrlMarks(Start(connect), Compose(p))[k]
  {
    AuthorityNonempty(p, connect);
    hide WellFormed, FieldMarks, Authority, Compose, HostAt, UrlMarks, Head;
    ComposeHostAt(p, connect);
    OutsideHostPart(Compose(p), connect, k);
  }

  lemma Replaced(l: Marks, head: Marks, before: Marks, after: Marks, rest: Marks)
    requires |before| == |after| && |l| == |head + before + rest|
    requires forall k | 0 <= k < |l| ::
      l[k] == if |head| <= k < |head| + |before| then after[k - |head|] else (head + before + rest)[k]
    ensures l == head + after + rest
  {
  }

  lemma ComposeMarks(p: Parts, connect: bool)
    requires WellFormed(p, connect)
    ensures FieldMarks(Compose(p), connect) == HeadMarks(p) + AuthorityMarks(p) + RestMarks(p)
  {
    hide WellFormed, UrlMarks, FieldMarks, Authority, AuthorityMarks, RestMarks, Head, HeadMarks, Compose, UrlRun, HasAt, Rest;
    var lo := |Head(p)|;
    PieceFields(p, HostField);
    ComposeUrl(p, connect);
    AuthorityFields(p, HostField);
    var l, u, before := FieldMarks(Compose(p), connect), UrlMarks(Start(connect), Compose(p)), Rep(HostField, Authority(p));
    forall k | 0 <= k < |l| ensures l[k] == if lo <= k < lo + |before| then AuthorityMarks(p)[k - lo] else u[k] {
      if lo <= k < lo + |Authority(p)| { AuthorityMarkAt(p, connect, k); } else { OuterMarkAt(p, connect, k); }
    }
    Replaced(l, HeadMarks(p), before, AuthorityMarks(p), RestMarks(p));
  }

  lemma HostSplits(p: Parts, connect: bool)
    requires WellFormed(p, connect) && |Compose(p)| < TWO_16 && p.host != []
    ensures SplitFields(Compose(p), connect).Some?
  {
    hide UrlMarks, Authority, RestMarks, Compose, Rep, Head, HeadMarks, UrlRun, HostRun, HasAt, Exact, HostMarks, Narrow,
         AuthorityMarks, IsSlices, StageOne, HostMayEnd, AuthorityRead, Spelled, HostForm, OriginForm, FragmentOk;
    ComposeUrl(p, connect);
    ComposeHostAt(p, connect);
    AuthorityHost(p);
    ComposeAuthority(p);
    UrlExact(Compose(p), connect);
    FirstStageInBounds(Compose(p), connect);
  }

  lemma OriginSplits(p: Parts)
    requires WellFormed(p, false) && |Compose(p)| < TWO_16 && p.host == []
    ensures SplitFields(Compose(p), false).Some?
  {
    assert Authority(p) == [] && HeadMarks(p) == [];
    hide UrlMarks, Authority, RestMarks, Compose, HeadMarks, UrlRun, HostRun, HasAt, Exact, Narrow, StageOne, IsSlices,
         HostSplit, Spelled, FragmentOk, Has;
    var u := UrlMarks(SpacesBefore, Compose(p));
    ComposeUrl(p, false);
    UrlExact(Compose(p), false);
    FirstStageInBounds(Compose(p), false);
    RestFields(p, SchemaField);
    RestFields(p, HostField);
    assert u == RestMarks(p) by { assert Rep(HostField, []) == []; }
    ExactHas(u, SchemaField);
    ExactHas(u, HostField);
  }

  lemma ComposeSplits(p: Parts, connect: bool)
    requires WellFormed(p, connect) && |Compose(p)| < TWO_16
    ensures SplitFields(Compose(p), connect).Some?
  {
    hide SplitFields, Compose;
    if p.host != [] { HostSplits(p, connect); } else { OriginSplits(p); }
  }

  /** The slice of a field is its part, and there is one exactly if the part is there. */
  ghost predicate FieldIs(text: string, m: map<Field, Slice>, f: Field, part: string) {
    && (f in m <==> part != [])
    && (f in m ==> InBounds(text, m[f]) && text[m[f].off..m[f].off + m[f].len] == part)
  }

  lemma ComposeFields(p: Parts, connect: bool, f: Field)
    requires WellFormed(p, connect) && |Compose(p)| < TWO_16
    ensures var r := SplitFields(Compose(p), connect);
      r.Some? && IsSlices(FieldMarks(Compose(p), connect), r.value) && FieldIs(Compose(p), r.value, f, PartOf(p, f))
  {
    hide WellFormed, FieldMarks, SplitFields, Stands, IsSlices, Compose, HeadMarks, AuthorityMarks, RestMarks;
    ComposeSplits(p, connect);
    SplitAreSlices(Compose(p), connect);
    ComposeMarks(p, connect);
    ComposeStands(p, f);
    StandsSlice(Compose(p), FieldMarks(Compose(p), connect), SplitFields(Compose(p), connect).value, f, PartOf(p, f));
  }

  lemma PortFits(p: Parts)
    requires Spelled(p)
    ensures AllDigits(p.port) && DecValue(p.port) <= 0xffff && (p.port == [] ==> DecValue(p.port) == 0)
  {
  }

  lemma AllFields(p: Parts, connect: bool)
    requires WellFormed(p, connect) && |Compose(p)| < TWO_16
    ensures var r := SplitFields(Compose(p), connect);
      r.Some? && forall f: Field :: FieldIs(Compose(p), r.value, f, PartOf(p, f))
  {
    hide WellFormed, SplitFields, IsSlices, Compose, FieldIs, FieldMarks, PartOf;
    ComposeSplits(p, connect);
    forall f: Field ensures FieldIs(Compose(p), SplitFields(Compose(p), connect).value, f, PartOf(p, f)) {
      ComposeFields(p, connect, f);
    }
  }

  /** CONNECT is for a host and a port only. */
  predicate Allowed(p: Parts, connect: bool) { connect ==> p.userinfo == [] && p.port != [] && Rest(p) == [] }

  lemma ConnectFields(p: Parts)
    requires WellFormed(p, true) && |Compose(p)| < TWO_16
    ensures SplitFields(Compose(p), true).Some?
    ensures SplitFields(Compose(p), true).value.Keys == {HostField, PortField} <==> Allowed(p, true)
  {
    hide SplitFields, Compose, Spelled, FragmentOk, Rest;
    AllFields(p, true);
    var m := SplitFields(Compose(p), true).value;
    hide Compose, SplitFields, InBounds;
    HostPortKeys(Compose(p), m, p);
  }

  lemma FieldIff(text: string, m: map<Field, Slice>, p: Parts, f: Field)
    requires forall g: Field :: FieldIs(text, m, g, PartOf(p, g))
    ensures f in m <==> PartOf(p, f) != []
  {
    assert FieldIs(text, m, f, PartOf(p, f));
  }

  lemma HostPortKeys(text: string, m: map<Field, Slice>, p: Parts)
    requires p.schema == [] && p.host != [] && forall f: Field :: FieldIs(text, m, f, PartOf(p, f))
    ensures m.Keys == {HostField, PortField} <==> Allowed(p, true)
  {
    hide FieldIs, Rest;
    FieldIff(text, m, p, SchemaField);
    FieldIff(text, m, p, UserinfoField);
    FieldIff(text, m, p, HostField);
    FieldIff(text, m, p, PortField);
    FieldIff(text, m, p, PathField);
    FieldIff(text, m, p, QueryField);
    FieldIff(text, m, p, FragmentField);
    RestEmpty(p);
    KeysHostPort(m);
  }

  lemma AnyField(f: Field)
    ensures f in {SchemaField, UserinfoField, HostField, PortField, PathField, QueryField, FragmentField}
  {
  }

  lemma KeysHostPort(m: map<Field, Slice>)
    ensures m.Keys == {HostField, PortField} <==>
      && HostField in m && PortField in m && SchemaField !in m && UserinfoField !in m
      && PathField !in m && QueryField !in m && FragmentField !in m
  {
    if HostField in m && PortField in m && SchemaField !in m && UserinfoField !in m
       && PathField !in m && QueryField !in m && FragmentField !in m {
      forall f: Field ensures f in m.Keys <==> f in {HostField, PortField} { AnyField(f); }
    }
  }

  lemma RestEmpty(p: Parts)
    ensures Rest(p) == [] <==> p.path == [] && p.query == [] && p.fragment == []
  {
  }

  /** The url parses to its parts: exactly the fields of the parts that are there are set, each to the
      slice holding its part, and the port is the number of its digits. */
  ghost predicate ReadsBack(p: Parts, connect: bool, tail: string) {
    var r := ParsedUrl(Compose(p), connect, tail);
    && r.Some? && AllDigits(p.port) && r.value.port == DecValue(p.port)
    && forall f: Field :: FieldIs(Compose(p), r.value.fields, f, PartOf(p, f))
  }

  lemma PortTextIs(buf: string, s: Slice, port: string)
    requires InBounds(buf, s) && buf[s.off..s.off + s.len] == port
    ensures PortText(buf, s, []) == port
  {
    assert port + [] == port;
  }

  lemma SplitPort(text: string, connect: bool, port: string)
    requires |text| < TWO_16 && SplitFields(text, connect).Some? && AllDigits(port)
    requires FieldIs(text, SplitFields(text, connect).value, PortField, port) && port != []
    ensures LeadingNumber(text[SplitFields(text, connect).value[PortField].off..] + []) == DecValue(port)
  {
    hide SplitFields, LeadingNumber, DecValue, AllDigits, PortText;
    PortTexts(text, connect, []);
    PortTextIs(text, SplitFields(text, connect).value[PortField], port);
  }

  lemma PortOk(p: Parts, connect: bool)
    requires WellFormed(p, connect)
    ensures AllDigits(p.port) && DecValue(p.port) <= 0xffff && (p.port == [] ==> DecValue(p.port) == 0)
  {
    hide HostForm, OriginForm, FragmentOk;
    PortFits(p);
  }

  lemma ComposedPort(p: Parts, connect: bool)
    requires WellFormed(p, connect) && |Compose(p)| < TWO_16
    ensures var r := SplitFields(Compose(p), connect);
      r.Some? && AllDigits(p.port) && DecValue(p.port) <= 0xffff
      && if PortField in r.value then LeadingNumber(Compose(p)[r.value[PortField].off..] + []) == DecValue(p.port)
         else DecValue(p.port) == 0
  {
    hide WellFormed, FieldMarks, SplitFields, IsSlices, Compose, LeadingNumber, DecValue, AllDigits;
    PortOk(p, connect);
    ComposeFields(p, connect, PortField);
    if p.port != [] { SplitPort(Compose(p), connect, p.port); }
  }

  /** Parsing a well-formed url with nothing behind it gives back its parts. */
  lemma ParsesBack(p: Parts, connect: bool)
    requires WellFormed(p, connect) && Allowed(p, connect) && |Compose(p)| < TWO_16
    ensures ReadsBack(p, connect, [])
  {
    hide WellFormed, SplitFields, Compose, LeadingNumber, DecValue, AllDigits, Allowed, FieldIs, PartOf;
    AllFields(p, connect);
    ComposedPort(p, connect);
    if connect { ConnectFields(p); }
  }

  // ---- exactly when ----

  /** Nothing that follows in memory reads on as part of the port. */
  predicate TailSpared(p: Parts, tail: string)
    requires AllDigits(p.port)
  {
    p.port == [] || Rest(p) != [] || tail == [] || !IsNum(tail[0]) || (DecValue(p.port) == 0 && LeadingNumber(tail) == 0)
  }

  /** The port ends the url exactly if nothing is composed behind it. */
  lemma LastMark(p: Parts, connect: bool)
    requires WellFormed(p, connect) && p.port != []
    ensures Compose(p) != []
    ensures FieldMarks(Compose(p), connect)[|Compose(p)| - 1] == Some(PortField) <==> Rest(p) == []
  {
    hide WellFormed, FieldMarks, HeadMarks, Head, RestMarks, Rest, Has, HostText, HostTextMarks, UserinfoMarks;
    ComposeMarks(p, connect);
    AuthorityFields(p, PortField);
    RestFields(p, PortField);
    PieceFields(p, PortField);
    PortLast(p);
    hide Authority, AuthorityMarks;
    var marks, n := FieldMarks(Compose(p), connect), |Compose(p)|;
    if Rest(p) != [] {
      assert marks[n - 1] == RestMarks(p)[|Rest(p)| - 1];
      NotMarked(RestMarks(p), PortField, |Rest(p)| - 1);
    } else {
      assert marks[n - 1] == AuthorityMarks(p)[|Authority(p)| - 1];
    }
  }

  lemma NotMarked(marks: Marks, f: Field, k: nat)
    requires !Has(marks, f) && k < |marks|
    ensures marks[k] != Some(f)
  {
  }

  lemma PortLast(p: Parts)
    requires p.port != [] && |AuthorityMarks(p)| == |Authority(p)|
    ensures Authority(p) != [] && AuthorityMarks(p)[|Authority(p)| - 1] == Some(PortField)
  {
    hide HostTextMarks, UserinfoMarks, HostText, UserinfoText;
    var m := Rep(PortField, p.port);
    assert m[|m| - 1] == Some(PortField);
  }

  lemma FieldReadsBack(p: Parts, connect: bool, tail: string, f: Field)
    requires ReadsBack(p, connect, tail)
    ensures FieldIs(Compose(p), ParsedUrl(Compose(p), connect, tail).value.fields, f, PartOf(p, f))
  {
    hide Compose, ParsedUrl, FieldIs, PartOf, DecValue;
  }

  lemma TailSame(p: Parts, connect: bool, tail: string)
    requires WellFormed(p, connect) && Allowed(p, connect) && |Compose(p)| < TWO_16 && AllDigits(p.port)
    ensures ReadsBack(p, connect, [])
    ensures TailHarmless(Compose(p), connect, tail) <==> TailSpared(p, tail)
  {
    hide WellFormed, Compose, Allowed, FieldMarks, SplitFields, IsSlices, DecValue, Rest, AllDigits, LeadingNumber;
    ParsesBack(p, connect);
    FieldReadsBack(p, connect, [], PortField);
    if p.port != [] {
      FieldsAreSlices(Compose(p), connect, []);
      LastMark(p, connect);
      SliceMarks(FieldMarks(Compose(p), connect), ParsedUrl(Compose(p), connect, []).value.fields, PortField);
    }
  }

  lemma ParsedFields(buf: string, connect: bool, a: string, b: string)
    requires ParsedUrl(buf, connect, a).Some? && ParsedUrl(buf, connect, b).Some?
    ensures ParsedUrl(buf, connect, a).value.fields == ParsedUrl(buf, connect, b).value.fields
  {
    hide SplitFields, LeadingNumber;
  }

  lemma WithTail(p: Parts, connect: bool, tail: string)
    requires WellFormed(p, connect) && Allowed(p, connect) && |Compose(p)| < TWO_16 && AllDigits(p.port)
    ensures ReadsBack(p, connect, tail) <==> TailSpared(p, tail)
  {
    hide WellFormed, Compose, Allowed, DecValue, Rest, ParsedUrl, TailHarmless, TailSpared, FieldIs, AllDigits, PartOf;
    TailSame(p, connect, tail);
    TailIff(Compose(p), connect, tail);
    if ReadsBack(p, connect, tail) { ParsedFields(Compose(p), connect, tail, []); }
  }

  /** CONNECT accepts nothing but a host and a port. */
  lemma ConnectOnly(p: Parts, tail: string)
    requires p.schema == [] && p.host != [] && ReadsBack(p, true, tail)
    ensures Allowed(p, true) && p.fragment == []
  {
    hide Compose, SplitFields, LeadingNumber, Rest, DecValue;
    RestEmpty(p);
    var m := ParsedUrl(Compose(p), true, tail).value.fields;
    HostPortKeys(Compose(p), m, p);
  }

  lemma UrlHashDies(s: UrlState, a: string, f: string)
    requires UrlRun(s, a) == Server
    ensures UrlRun(s, a + ['#'] + f).UrlDead?
  {
    hide UrlRun;
    UrlRunSnoc(s, a, '#');
    assert (a + ['#'] + f)[..|a| + 1] == a + ['#'];
    StaysDead(s, a + ['#'] + f, |a| + 1);
  }

  lemma DeadRefused(buf: string, tail: string)
    requires UrlRun(SpacesBefore, buf).UrlDead?
    ensures ParsedUrl(buf, false, tail) == None
  {
    hide UrlRun, HostSplit, HasAt, UrlMarks;
  }

  /** Without path and query before it, a fragment makes the url unparseable. */
  lemma BareFragmentRefused(p: Parts, tail: string)
    requires Composable(p, false) && p.path == [] && p.query == [] && p.fragment != []
    ensures ParsedUrl(Compose(p), false, tail) == None
  {
    assert p.host != [];
    hide UrlRun, UrlMarks, HasAt, Compose, HeadMarks, RestMarks, Rep, Composable, ParsedUrl, WellFormed, Authority;
    var q := p.(fragment := []);
    WithoutFragment(p);
    ComposeUrl(q, false);
    UrlHashDies(SpacesBefore, Compose(q), p.fragment);
    DeadRefused(Compose(p), tail);
  }

  lemma WithoutFragment(p: Parts)
    requires Composable(p, false) && p.fragment != []
    ensures var q := p.(fragment := []); WellFormed(q, false) && Compose(p) == Compose(q) + ['#'] + p.fragment
  {
    var q := p.(fragment := []);
    assert Spelled(q);
    hide Spelled;
    assert Head(p) == Head(q) && Authority(p) == Authority(q);
    assert Rest(p) == Rest(q) + (['#'] + p.fragment);
    hide Head, Authority, Rest;
  }

  lemma UrlHashes(s: UrlState, a: string)
    requires UrlRun(s, a) == Path || UrlRun(s, a) == Query
    ensures UrlRun(s, a + ['#'] + ['#']) == FragmentStart
  {
    hide UrlRun;
    UrlRunSnoc(s, a, '#');
    UrlRunSnoc(s, a + ['#'], '#');
  }

  lemma HashHash(p: Parts)
    requires Composable(p, false) && p.fragment != [] && p.fragment[0] == '#' && (p.path != [] || p.query != [])
    ensures var n := |Compose(p)| - |p.fragment|;
      0 <= n < |Compose(p)| && UrlRun(SpacesBefore, Compose(p)[..n + 1]) == FragmentStart
  {
    hide UrlMarks, UrlRun, HasAt, Compose, HeadMarks, RestMarks, Rep, Composable, WellFormed, Authority;
    var q := p.(fragment := []);
    WithoutFragment(p);
    ComposeUrl(q, false);
    UrlHashes(SpacesBefore, Compose(q));
    assert Compose(p)[..|Compose(q)| + 2] == Compose(q) + ['#'] + ['#'];
  }

  /** A second number sign in front of a fragment is read as a delimiter. */
  lemma HashIsSkipped(p: Parts, k: nat)
    requires Composable(p, false) && p.fragment != [] && p.fragment[0] == '#' && (p.path != [] || p.query != [])
    requires k <= |Compose(p)| - |p.fragment|
    ensures k < |Compose(p)| && UrlMarks(SpacesBefore, Compose(p))[k] != Some(FragmentField)
  {
    hide UrlMarks, UrlRun, Compose, Composable;
    HashHash(p);
    UrlRankGrows(SpacesBefore, Compose(p), k + 1, |Compose(p)| - |p.fragment| + 1);
    UrlMarkIs(SpacesBefore, Compose(p), k);
  }

  lemma HashFragmentLost(p: Parts, tail: string)
    requires Composable(p, false) && p.fragment != [] && p.fragment[0] == '#' && (p.path != [] || p.query != [])
    requires |Compose(p)| < TWO_16
    ensures !ReadsBack(p, false, tail)
  {
    hide Compose, ParsedUrl, FieldMarks, UrlMarks, HostAt, Composable, IsSlices;
    if ReadsBack(p, false, tail) {
      var text, m := Compose(p), ParsedUrl(Compose(p), false, tail).value.fields;
      FieldReadsBack(p, false, tail, FragmentField);
      var s := m[FragmentField];
      FieldsAreSlices(text, false, tail);
      SliceMarks(FieldMarks(text, false), m, FragmentField);
      FragmentOutside(text, s.off);
      HashIsSkipped(p, s.off);
    }
  }

  lemma FragmentOutside(buf: string, k: nat)
    requires k < |buf| && FieldMarks(buf, false)[k] == Some(FragmentField)
    ensures UrlMarks(SpacesBefore, buf)[k] == Some(FragmentField)
  {
    hide FieldMarks, HostAt, UrlMarks, HostStateAt, HostStep;
    if In(HostAt(buf, false), k) {
      InHostPart(buf, false, k);
    } else {
      OutsideHostPart(buf, false, k);
    }
  }

  /** Composing a url from its parts and parsing it gives back the parts if and only if a fragment has
      a path or query before it and no second number sign, CONNECT has just a host and a port, and no
      digits that follow in memory read on as part of the port. */
  lemma RoundTrip(p: Parts, connect: bool, tail: string)
    requires Composable(p, connect) && |Compose(p)| < TWO_16
    ensures AllDigits(p.port)
    ensures ReadsBack(p, connect, tail) <==> FragmentOk(p) && Allowed(p, connect) && TailSpared(p, tail)
  {
    PortFits(p);
    hide ReadsBack, TailSpared, Compose, Rest, DecValue, Spelled;
    if FragmentOk(p) && Allowed(p, connect) {
      WithTail(p, connect, tail);
    } else if ReadsBack(p, connect, tail) {
      if connect {
        ConnectOnly(p, tail);
      } else if p.path == [] && p.query == [] {
        BareFragmentRefused(p, tail);
        NoneReadsBack(p, tail);
      } else {
        HashFragmentLost(p, tail);
      }
    }
  }

  lemma NoneReadsBack(p: Parts, tail: string)
    requires ParsedUrl(Compose(p), false, tail) == None
    ensures !ReadsBack(p, false, tail)
  {
  }

  // ---- ports that read on ----

  /** When the port ends the url, the digits that follow in memory are read as more of it. */
  lemma PortReadsOn(p: Parts, connect: bool, tail: string)
    requires WellFormed(p, connect) && Allowed(p, connect) && |Compose(p)| < TWO_16 && p.port != [] && Rest(p) == []
    ensures AllDigits(p.port + tail[..DigitsAhead(tail)])
    ensures var r, v := ParsedUrl(Compose(p), connect, tail), DecValue(p.port + tail[..DigitsAhead(tail)]);
      if v > 0xffff then r == None else r.Some? && r.value.port == v
  {
    hide WellFormed, Compose, Allowed, DecValue, AllDigits, Rest, SplitFields, LeadingNumber, DigitsAhead, PortText, InBounds;
    PortAtEnd(p, connect);
    var s := SplitFields(Compose(p), connect).value[PortField];
    PortTexts(Compose(p), connect, tail);
    PortTextToEnd(Compose(p), s, p.port, tail);
  }

  lemma PortTextToEnd(buf: string, s: Slice, port: string, tail: string)
    requires InBounds(buf, s) && s.off + s.len == |buf| && buf[s.off..] == port
    ensures PortText(buf, s, tail) == port + tail[..DigitsAhead(tail)]
  {
    hide DigitsAhead;
    assert buf[s.off..s.off + s.len] == buf[s.off..];
  }

  lemma PortAtEnd(p: Parts, connect: bool)
    requires WellFormed(p, connect) && Allowed(p, connect) && |Compose(p)| < TWO_16 && p.port != [] && Rest(p) == []
    ensures var r := SplitFields(Compose(p), connect);
      && r.Some? && PortField in r.value && (connect ==> r.value.Keys == {HostField, PortField})
      && var s := r.value[PortField];
         InBounds(Compose(p), s) && s.off + s.len == |Compose(p)| && Compose(p)[s.off..] == p.port
  {
    hide WellFormed, Compose, Allowed, Rest, FieldMarks, IsSlices, SplitFields;
    ComposeFields(p, connect, PortField);
    if connect { ConnectFields(p); }
    LastMark(p, connect);
    var m := SplitFields(Compose(p), connect).value;
    SliceMarks(FieldMarks(Compose(p), connect), m, PortField);
    assert Compose(p)[m[PortField].off..] == Compose(p)[m[PortField].off..|Compose(p)|];
  }

  function HostAndPortOnly(port: string): Parts { Parts("http", "", "h", false, port, "", "", "") }

  lemma ExampleText(port: string)
    requires port != []
    ensures var p := HostAndPortOnly(port); Rest(p) == [] && Compose(p) == "http://h:" + port
  {
    var p := HostAndPortOnly(port);
    assert Rest(p) == [] && Head(p) == "http://" && Authority(p) == "h" + ([':'] + port);
    hide Rest, Head, Authority;
    assert "http://" + ("h" + ([':'] + port)) + [] == "http://h:" + port;
  }

  lemma ExampleOk(port: string)
    requires AllDigits(port) && port != [] && DecValue(port) <= 0xffff
    ensures WellFormed(HostAndPortOnly(port), false)
  {
    hide DecValue;
  }

  lemma Digits80()
    ensures DecValue("8") == 8 && DecValue("80") == 80 && DecValue("808") == 808
    ensures DecValue("8080") == 8080 && DecValue("80809") == 80809
  {
    assert "8"[..0] == "" && DecValue("8") == 8;
    assert "80"[..1] == "8" && DecValue("80") == 80;
    assert "808"[..2] == "80" && DecValue("808") == 808;
    assert "8080"[..3] == "808" && DecValue("8080") == 8080;
    assert "80809"[..4] == "8080" && DecValue("80809") == 80809;
  }

  lemma OneDigit(c: char)
    requires IsNum(c)
    ensures DigitsAhead([c]) == 1 && [c][..1] == [c]
  {
    DigitsAheadIs([c], 1);
  }

  /** For one: port 8 with a zero behind it in memory is taken for port 80. */
  lemma PortMisread()
    ensures var r := ParsedUrl("http://h:" + "8", false, "0"); r.Some? && r.value.port == 80
  {
    hide Compose, ParsedUrl, DecValue, DigitsAhead, WellFormed, Rest;
    Digits80();
    ExampleOk("8");
    ExampleText("8");
    OneDigit('0');
    assert "8" + ['0'] == "80";
    PortReadsOn(HostAndPortOnly("8"), false, "0");
  }

  /** And another: port 8080 with a nine behind it is refused. */
  lemma PortRefused()
    ensures ParsedUrl("http://h:" + "8080", false, "9") == None
  {
    hide Compose, ParsedUrl, DecValue, DigitsAhead, WellFormed, Rest;
    Digits80();
    ExampleOk("8080");
    ExampleText("8080");
    OneDigit('9');
    assert "8080" + ['9'] == "80809";
    PortReadsOn(HostAndPortOnly("8080"), false, "9");
  }
}

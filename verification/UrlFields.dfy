/** What the fields of a parsed url are. */
module UrlFields {

  import opened Wrappers
  import opened HttpTypes
  import opened HttpChars
  import opened UrlAutomaton
  import opened Numbers
  import opened UrlSlices
  import opened UrlParser

  /** Where the first stage finds the host part, in exact numbers. */
  function HostAt(buf: string, connect: bool): Slice { HostPart(Exact(UrlMarks(Start(connect), buf))) }

  function HostMark(buf: string, connect: bool, lo: nat, k: nat): Option<Field>
    requires lo <= k < |buf|
  {
    HostFieldOf(HostRun(HostBegin(HasAt(Start(connect), buf)), buf[lo..k + 1]))
  }

  /** The field of every character: by the url automaton, and within the host part by the host
      automaton. */
  function FieldMarks(buf: string, connect: bool): (marks: Marks)
    ensures |marks| == |buf|
  {
    var u := UrlMarks(Start(connect), buf);
    var lo := HostAt(buf, connect).off;
    seq(|buf|, k requires 0 <= k < |buf| =>
      if u[k] == Some(HostField) && lo <= k then HostMark(buf, connect, lo, k) else u[k])
  }

  lemma NarrowExact(marks: Marks, m: map<Field, Slice>)
    requires IsSlices(marks, m) && |marks| < TWO_16
    ensures Narrow(m) == m
  {
  }

  predicate StageOne(f: Field) { f.SchemaField? || f.HostField? || f.PathField? || f.QueryField? || f.FragmentField? }

  predicate StageTwo(f: Field) { f.UserinfoField? || f.HostField? || f.PortField? }

  lemma ExactHas(marks: Marks, f: Field)
    ensures f in Exact(marks) <==> Has(marks, f)
  {
  }

  lemma UrlStageOne(s: UrlState, buf: string, f: Field)
    requires Has(UrlMarks(s, buf), f)
    ensures StageOne(f)
  {
    hide UrlRun;
    var k :| 0 <= k < |UrlMarks(s, buf)| && UrlMarks(s, buf)[k] == Some(f);
    assert Some(f) == FieldOf(UrlRun(s, buf[..k + 1]));
  }

  lemma HostStageTwo(s: HostState, text: string, lo: nat, f: Field)
    requires lo <= |text| && Has(HostMarks(s, text, lo), f)
    ensures StageTwo(f)
  {
    hide HostRun;
    var k :| 0 <= k < |text| && HostMarks(s, text, lo)[k] == Some(f);
    assert Some(f) == if k < lo then None else HostFieldOf(HostRun(s, text[lo..k + 1]));
  }

  lemma UrlExact(buf: string, connect: bool)
    ensures var u := UrlMarks(Start(connect), buf);
      && IsSlices(u, Exact(u))
      && (|buf| < TWO_16 ==> FirstStage(buf, connect) == Exact(u))
      && forall f <- Exact(u) :: StageOne(f)
  {
    hide UrlMarks, Exact, IsSlices, Has, StageOne;
    var u := UrlMarks(Start(connect), buf);
    UrlContiguous(Start(connect), buf);
    ExactSlices(u);
    if |buf| < TWO_16 { NarrowExact(u, Exact(u)); }
    forall f | f in Exact(u) ensures StageOne(f) {
      ExactHas(u, f);
      UrlStageOne(Start(connect), buf, f);
    }
  }

  lemma HostExact(s: HostState, text: string, lo: nat)
    requires lo <= |text| < TWO_16
    ensures var h := HostMarks(s, text, lo);
      && IsSlices(h, Exact(h)) && Narrow(Exact(h)) == Exact(h)
      && forall f <- Exact(h) :: StageTwo(f)
  {
    hide HostMarks, Exact, IsSlices, Has, StageTwo;
    var h := HostMarks(s, text, lo);
    HostContiguous(s, text, lo);
    ExactSlices(h);
    NarrowExact(h, Exact(h));
    forall f | f in Exact(h) ensures StageTwo(f) {
      ExactHas(h, f);
      HostStageTwo(s, text, lo, f);
    }
  }

  /** Putting the fields of the second stage in place of the host part of the first. */
  lemma CombineSlices(u: Marks, e: map<Field, Slice>, h: Marks, d: map<Field, Slice>, marks: Marks, lo: nat, hi: nat)
    requires IsSlices(u, e) && IsSlices(h, d) && |marks| == |u| && |h| == hi <= |u| && lo <= hi
    requires (forall f <- e :: StageOne(f)) && (forall f <- d :: StageTwo(f))
    requires forall k | 0 <= k < |u| :: u[k] == Some(HostField) <==> lo <= k < hi
    requires forall k | 0 <= k < lo :: h[k] == None
    requires forall k | 0 <= k < |u| :: marks[k] == if lo <= k < hi then h[k] else u[k]
    ensures IsSlices(marks, (e - {HostField}) + d)
  {
    var m := (e - {HostField}) + d;
    forall f, k | f in m && In(m[f], k) && 0 <= k < |marks| ensures marks[k] == Some(f) {
      if f in d {
        assert h[k] == Some(f);
      } else {
        assert u[k] == Some(f);
      }
    }
    forall k | 0 <= k < |marks| && marks[k].Some? ensures marks[k].value in m && In(m[marks[k].value], k) {
      if lo <= k < hi { assert h[k].value in d; } else { assert u[k].value in e; }
    }
  }

  /** The host part is exactly where the first stage marks it. */
  lemma HostAtMarks(buf: string, connect: bool, k: nat)
    requires k < |buf|
    ensures InBounds(buf, HostAt(buf, connect))
    ensures UrlMarks(Start(connect), buf)[k] == Some(HostField) <==> In(HostAt(buf, connect), k)
  {
    UrlExact(buf, connect);
    hide Exact, UrlMarks;
  }

  function HostPartMarks(buf: string, connect: bool): Marks
    requires InBounds(buf, HostAt(buf, connect))
  {
    var h := HostAt(buf, connect);
    HostMarks(HostBegin(HasAt(Start(connect), buf)), buf[..h.off + h.len], h.off)
  }

  lemma FieldMarkIs(buf: string, connect: bool, k: nat)
    requires k < |buf| && InBounds(buf, HostAt(buf, connect))
    ensures FieldMarks(buf, connect)[k] ==
      if In(HostAt(buf, connect), k) then HostPartMarks(buf, connect)[k] else UrlMarks(Start(connect), buf)[k]
  {
    hide Exact, UrlMarks, HasAt, HostRun, HostFieldOf, HostMarks, HostAt;
    HostAtMarks(buf, connect, k);
    var lo, hi := HostAt(buf, connect).off, HostAt(buf, connect).off + HostAt(buf, connect).len;
    if lo <= k < hi {
      HostMarkAt(HostBegin(HasAt(Start(connect), buf)), buf[..hi], lo, k);
      assert buf[..hi][lo..k + 1] == buf[lo..k + 1];
    }
  }

  lemma HostMarkAt(s: HostState, text: string, lo: nat, k: nat)
    requires lo <= k < |text|
    ensures HostMarks(s, text, lo)[k] == HostFieldOf(HostRun(s, text[lo..k + 1]))
  {
    hide HostRun, HostFieldOf;
  }

  /** The host automaton's state once text[h.off..k] of the host part is read. */
  function HostStateAt(buf: string, connect: bool, k: nat): HostState
    requires HostAt(buf, connect).off <= k <= |buf|
  {
    HostRun(HostBegin(HasAt(Start(connect), buf)), buf[HostAt(buf, connect).off..k])
  }

  /** Within the host part the host automaton decides. */
  lemma InHostPart(buf: string, connect: bool, k: nat)
    requires k < |buf| && In(HostAt(buf, connect), k)
    ensures HostStateAt(buf, connect, k + 1) == HostStep(HostStateAt(buf, connect, k), buf[k])
    ensures FieldMarks(buf, connect)[k] == HostFieldOf(HostStateAt(buf, connect, k + 1))
  {
    hide Exact, UrlMarks, HasAt, HostRun, HostFieldOf, HostMarks, HostAt, FieldMarks, HostStep;
    HostAtMarks(buf, connect, k);
    FieldMarkIs(buf, connect, k);
    var h, s := HostAt(buf, connect), HostBegin(HasAt(Start(connect), buf));
    HostMarkAt(s, buf[..h.off + h.len], h.off, k);
    assert buf[..h.off + h.len][h.off..k + 1] == buf[h.off..k + 1];
    HostMarksSnoc(s, buf, h.off, k);
  }

  /** Outside it the url automaton does. */
  lemma OutsideHostPart(buf: string, connect: bool, k: nat)
    requires k < |buf| && !In(HostAt(buf, connect), k)
    ensures FieldMarks(buf, connect)[k] == UrlMarks(Start(connect), buf)[k] != Some(HostField)
  {
    hide FieldMarks, HostAt, UrlMarks;
    HostAtMarks(buf, connect, k);
    FieldMarkIs(buf, connect, k);
  }

  lemma SplitAreSlices(buf: string, connect: bool)
    requires |buf| < TWO_16 && SplitFields(buf, connect).Some?
    ensures IsSlices(FieldMarks(buf, connect), SplitFields(buf, connect).value)
  {
    hide UrlMarks, HostMarks, IsSlices, HostRun, UrlRun, FieldMarks, Exact, HasAt, Narrow, StageOne, StageTwo;
    UrlExact(buf, connect);
    FirstStageInBounds(buf, connect);
    var u, marks := UrlMarks(Start(connect), buf), FieldMarks(buf, connect);
    var e, h := Exact(u), HostAt(buf, connect);
    forall k | 0 <= k < |buf|
      ensures u[k] == Some(HostField) <==> In(h, k)
      ensures marks[k] == if In(h, k) then HostPartMarks(buf, connect)[k] else u[k]
    {
      HostAtMarks(buf, connect, k);
      FieldMarkIs(buf, connect, k);
    }
    if SchemaField in e || HostField in e {
      var s := HostBegin(HasAt(Start(connect), buf));
      HostExact(s, buf[..h.off + h.len], h.off);
      var hm := HostPartMarks(buf, connect);
      NoneBefore(s, buf[..h.off + h.len], h.off);
      CombineSlices(u, e, hm, Exact(hm), marks, h.off, h.off + h.len);
    } else {
      assert marks == u;
    }
  }

  lemma NoneBefore(s: HostState, text: string, lo: nat)
    requires lo <= |text|
    ensures forall k | 0 <= k < lo :: HostMarks(s, text, lo)[k] == None
  {
  }

  /** The fields of a url that parses are non-empty slices of it, each holding exactly the characters
      of that field. */
  lemma FieldsAreSlices(buf: string, connect: bool, tail: string)
    requires |buf| < TWO_16 && ParsedUrl(buf, connect, tail).Some?
    ensures IsSlices(FieldMarks(buf, connect), ParsedUrl(buf, connect, tail).value.fields)
  {
    SplitAreSlices(buf, connect);
    hide IsSlices, FieldMarks, SplitFields;
  }

  // ---- the other characters are delimiters ----

  predicate IsDelimiter(c: char) { c == ':' || c == '/' || c == '?' || c == '#' || c == '@' || c == '[' || c == ']' }

  lemma UrlDelimiter(s: UrlState, c: char)
    requires FieldOf(UrlStep(s, c)).None? && !UrlStep(s, c).UrlDead?
    ensures IsDelimiter(c)
  {
    hide IsUserinfoChar, IsUrlChar, IsAlpha;
  }

  lemma HostDelimiter(s: HostState, c: char)
    requires HostFieldOf(HostStep(s, c)).None? && !HostStep(s, c).HostDead?
    ensures IsDelimiter(c)
  {
    hide IsUserinfoChar, IsHostChar, IsV6Char;
  }

  lemma UrlMarkAt(s: UrlState, buf: string, k: nat)
    requires k < |buf|
    ensures UrlMarks(s, buf)[k] == FieldOf(UrlStep(UrlRun(s, buf[..k]), buf[k]))
    ensures UrlRun(s, buf[..k + 1]) == UrlStep(UrlRun(s, buf[..k]), buf[k])
  {
    UrlMarksSnoc(s, buf, k);
    hide UrlRun, UrlStep, FieldOf;
  }

  /** What parsing passes through: both automata are alive all the way. */
  lemma Alive(buf: string, connect: bool, k: nat)
    requires |buf| < TWO_16 && SplitFields(buf, connect).Some? && k <= |buf|
    ensures !UrlRun(Start(connect), buf[..k]).UrlDead?
    ensures var h := HostAt(buf, connect);
      h.off <= k <= h.off + h.len && h.len > 0 ==> !HostStateAt(buf, connect, k).HostDead?
  {
    hide UrlMarks, HostMarks, IsSlices, HostRun, UrlRun, Exact, HasAt, Narrow, StageOne;
    UrlExact(buf, connect);
    FirstStageInBounds(buf, connect);
    var h, start := HostAt(buf, connect), Start(connect);
    if UrlRun(start, buf[..k]).UrlDead? { StaysDead(start, buf, k); }
    if h.off <= k <= h.off + h.len && h.len > 0 {
      var s, w := HostBegin(HasAt(start, buf)), buf[h.off..h.off + h.len];
      assert w[..k - h.off] == buf[h.off..k];
      if HostRun(s, w[..k - h.off]).HostDead? { HostStaysDead(s, w, k - h.off); }
    }
  }

  lemma NoneIsDelimiter(buf: string, connect: bool, k: nat)
    requires |buf| < TWO_16 && SplitFields(buf, connect).Some? && k < |buf| && FieldMarks(buf, connect)[k] == None
    ensures IsDelimiter(buf[k])
  {
    hide UrlMarks, UrlRun, HostAt, FieldMarks, UrlStep, HostStep, FieldOf, HostFieldOf, SplitFields, IsDelimiter, HostStateAt;
    Alive(buf, connect, k + 1);
    if In(HostAt(buf, connect), k) {
      InHostPart(buf, connect, k);
      HostDelimiter(HostStateAt(buf, connect, k), buf[k]);
    } else {
      OutsideHostPart(buf, connect, k);
      UrlMarkAt(Start(connect), buf, k);
      UrlDelimiter(UrlRun(Start(connect), buf[..k]), buf[k]);
    }
  }

  lemma Unmarked(marks: Marks, m: map<Field, Slice>, k: nat)
    requires IsSlices(marks, m) && k < |marks|
    ensures marks[k] == None <==> forall f <- m :: !In(m[f], k)
  {
  }

  /** A character of a url that parses is in no field only if it is a delimiter. */
  lemma OthersAreDelimiters(buf: string, connect: bool, tail: string, k: nat)
    requires |buf| < TWO_16 && ParsedUrl(buf, connect, tail).Some? && k < |buf|
    requires forall f <- ParsedUrl(buf, connect, tail).value.fields :: !In(ParsedUrl(buf, connect, tail).value.fields[f], k)
    ensures IsDelimiter(buf[k])
  {
    hide IsSlices, FieldMarks, SplitFields, LeadingNumber, IsDelimiter;
    FieldsAreSlices(buf, connect, tail);
    Unmarked(FieldMarks(buf, connect), ParsedUrl(buf, connect, tail).value.fields, k);
    NoneIsDelimiter(buf, connect, k);
  }

  // ---- fields stand in order ----

  /** The order of fields in a url. */
  function Place(f: Field): nat {
    match f
    case SchemaField => 0
    case UserinfoField => 1
    case HostField => 2
    case PortField => 3
    case PathField => 4
    case QueryField => 5
    case FragmentField => 6
  }

  lemma UrlPlace(a: UrlState, b: UrlState)
    requires FieldOf(a).Some? && FieldOf(b).Some? && UrlRank(a) <= UrlRank(b)
    ensures Place(FieldOf(a).value) <= Place(FieldOf(b).value)
  {
  }

  lemma HostPlace(a: HostState, b: HostState)
    requires HostFieldOf(a).Some? && HostFieldOf(b).Some? && HostRank(a) <= HostRank(b)
    ensures Place(HostFieldOf(a).value) <= Place(HostFieldOf(b).value)
  {
  }

  lemma UrlMarksOrdered(s: UrlState, buf: string, i: nat, j: nat)
    requires i < j < |buf| && UrlMarks(s, buf)[i].Some? && UrlMarks(s, buf)[j].Some?
    ensures Place(UrlMarks(s, buf)[i].value) <= Place(UrlMarks(s, buf)[j].value)
  {
    UrlRankGrows(s, buf, i + 1, j + 1);
    hide UrlRun, UrlRank, FieldOf, Place;
    UrlPlace(UrlRun(s, buf[..i + 1]), UrlRun(s, buf[..j + 1]));
  }

  lemma HostMarksOrdered(s: HostState, text: string, lo: nat, i: nat, j: nat)
    requires lo <= i < j < |text| && HostMarks(s, text, lo)[i].Some? && HostMarks(s, text, lo)[j].Some?
    ensures Place(HostMarks(s, text, lo)[i].value) <= Place(HostMarks(s, text, lo)[j].value)
  {
    hide HostRun, HostRank, HostFieldOf, Place, HostMarks;
    HostMarkAt(s, text, lo, i);
    HostMarkAt(s, text, lo, j);
    var w := text[lo..];
    assert w[..i + 1 - lo] == text[lo..i + 1] && w[..j + 1 - lo] == text[lo..j + 1];
    HostRankGrows(s, w, i + 1 - lo, j + 1 - lo);
    HostPlace(HostRun(s, text[lo..i + 1]), HostRun(s, text[lo..j + 1]));
  }

  lemma MarksOrdered(buf: string, connect: bool, i: nat, j: nat)
    requires i < j < |buf| && FieldMarks(buf, connect)[i].Some? && FieldMarks(buf, connect)[j].Some?
    ensures Place(FieldMarks(buf, connect)[i].value) <= Place(FieldMarks(buf, connect)[j].value)
  {
    hide UrlMarks, HostMarks, FieldMarks, Exact, HasAt, HostAt;
    HostAtMarks(buf, connect, i);
    HostAtMarks(buf, connect, j);
    FieldMarkIs(buf, connect, i);
    FieldMarkIs(buf, connect, j);
    var h, u := HostAt(buf, connect), UrlMarks(Start(connect), buf);
    var s := HostBegin(HasAt(Start(connect), buf));
    if In(h, i) && In(h, j) {
      HostMarksOrdered(s, buf[..h.off + h.len], h.off, i, j);
    } else {
      UrlMarksOrdered(Start(connect), buf, i, j);
      if In(h, i) { HostPartStageTwo(s, buf[..h.off + h.len], h.off, i); }
      if In(h, j) { HostPartStageTwo(s, buf[..h.off + h.len], h.off, j); }
      UrlMarkStageOne(Start(connect), buf, i);
      UrlMarkStageOne(Start(connect), buf, j);
    }
  }

  lemma HostPartStageTwo(s: HostState, text: string, lo: nat, k: nat)
    requires lo <= |text| && k < |text| && HostMarks(s, text, lo)[k].Some?
    ensures StageTwo(HostMarks(s, text, lo)[k].value)
  {
    hide HostMarks;
    HostStageTwo(s, text, lo, HostMarks(s, text, lo)[k].value);
  }

  lemma UrlMarkStageOne(s: UrlState, buf: string, k: nat)
    requires k < |buf|
    ensures UrlMarks(s, buf)[k].Some? ==> StageOne(UrlMarks(s, buf)[k].value)
  {
    hide UrlMarks;
    if UrlMarks(s, buf)[k].Some? { UrlStageOne(s, buf, UrlMarks(s, buf)[k].value); }
  }

  lemma SlicesInOrder(buf: string, connect: bool, m: map<Field, Slice>, f: Field, g: Field)
    requires IsSlices(FieldMarks(buf, connect), m) && f in m && g in m && Place(f) < Place(g)
    ensures m[f].off + m[f].len <= m[g].off
  {
    hide FieldMarks, Place;
    var i, j := m[f].off + m[f].len - 1, m[g].off;
    assert In(m[f], i) && In(m[g], j);
    if j < i { MarksOrdered(buf, connect, j, i); }
  }

  /** Fields do not overlap and stand in the order schema, userinfo, host, port, path, query, fragment. */
  lemma FieldsInOrder(buf: string, connect: bool, tail: string, f: Field, g: Field)
    requires |buf| < TWO_16 && ParsedUrl(buf, connect, tail).Some?
    requires var m := ParsedUrl(buf, connect, tail).value.fields; f in m && g in m && Place(f) < Place(g)
    ensures var m := ParsedUrl(buf, connect, tail).value.fields; m[f].off + m[f].len <= m[g].off
  {
    hide IsSlices, FieldMarks, ParsedUrl, Place;
    FieldsAreSlices(buf, connect, tail);
    SlicesInOrder(buf, connect, ParsedUrl(buf, connect, tail).value.fields, f, g);
  }

  // ---- the 16-bit limit ----

  lemma {:induction false} SlashesRun(n: nat)
    requires n > 0
    ensures UrlRun(SpacesBefore, Repeat('/', n)) == Path
    decreases n
  {
    var w := Repeat('/', n);
    assert w == Repeat('/', n - 1) + ['/'];
    UrlRunSnoc(SpacesBefore, Repeat('/', n - 1), '/');
    if n > 1 {
      SlashesRun(n - 1);
    } else {
      assert Repeat('/', 0) == [];
    }
  }

  function Repeat<T>(x: T, n: nat): (r: seq<T>)
    ensures |r| == n && forall k | 0 <= k < n :: r[k] == x
  {
    seq(n, _ => x)
  }

  lemma SlashesMarks(n: nat)
    requires n > 0
    ensures UrlMarks(SpacesBefore, Repeat('/', n)) == Repeat(Some(PathField), n)
    ensures Exact(Repeat(Some(PathField), n)) == map[PathField := Slice(0, n)]
  {
    hide UrlRun, Exact;
    var w := Repeat('/', n);
    var marks := UrlMarks(SpacesBefore, w);
    forall k | 0 <= k < n ensures marks[k] == Some(PathField) {
      assert w[..k + 1] == Repeat('/', k + 1);
      SlashesRun(k + 1);
    }
    var p := Repeat(Some(PathField), n);
    ExactSlices(p);
    forall f: Field { ExactHas(p, f); }
    assert p[0] == Some(PathField) && p[n - 1] == Some(PathField);
    assert In(Exact(p)[PathField], 0) && In(Exact(p)[PathField], n - 1);
  }

  lemma NarrowOne(n: nat)
    ensures Narrow(map[PathField := Slice(0, n)]) == map[PathField := Slice(0, n % TWO_16)]
  {
  }

  lemma SlashesSplit(n: nat)
    requires n > 0
    ensures SplitFields(Repeat('/', n), false) == Some(map[PathField := Slice(0, n % TWO_16)])
  {
    hide UrlRun, UrlMarks, Exact, HostSplit, HasAt, InBounds, Narrow, Repeat;
    SlashesRun(n);
    SlashesMarks(n);
    NarrowOne(n);
  }

  /** A url of slashes parses, whatever its length, as a path with its length truncated. */
  lemma SlashesParse(n: nat, tail: string)
    requires n > 0
    ensures ParsedUrl(Repeat('/', n), false, tail) == Some(UrlRecord(map[PathField := Slice(0, n % TWO_16)], 0))
  {
    SlashesSplit(n);
    hide SplitFields, LeadingNumber, Repeat;
  }

  /** The fields describe every url of n characters that parses, if and only if n is below 2^16:
      offsets and lengths are 16 bits wide, and a longer url is not refused. */
  lemma SixteenBitLimit(n: nat)
    ensures (forall buf: string, connect: bool, tail: string ::
               |buf| == n && ParsedUrl(buf, connect, tail).Some? ==>
                 IsSlices(FieldMarks(buf, connect), ParsedUrl(buf, connect, tail).value.fields))
            <==> n < TWO_16
  {
    hide IsSlices, FieldMarks, ParsedUrl;
    if n < TWO_16 {
      forall buf: string, connect: bool, tail: string | |buf| == n && ParsedUrl(buf, connect, tail).Some?
        ensures IsSlices(FieldMarks(buf, connect), ParsedUrl(buf, connect, tail).value.fields)
      {
        FieldsAreSlices(buf, connect, tail);
      }
    } else {
      var buf := Repeat('/', n);
      SlashesParse(n, []);
      SlashesTruncated(n);
      assert |buf| == n && ParsedUrl(buf, false, []).Some?;
    }
  }

  lemma SlashesTruncated(n: nat)
    requires n >= TWO_16
    ensures !IsSlices(FieldMarks(Repeat('/', n), false), map[PathField := Slice(0, n % TWO_16)])
  {
    var buf := Repeat('/', n);
    hide Exact, UrlMarks, HasAt, HostPartMarks, HostAt;
    SlashesMarks(n);
    HostAtMarks(buf, false, n - 1);
    FieldMarkIs(buf, false, n - 1);
    assert FieldMarks(buf, false)[n - 1] == Some(PathField);
    hide FieldMarks;
  }

  // ---- the limit, url by url ----

  lemma HostAtInBounds(buf: string, connect: bool)
    ensures InBounds(buf, HostAt(buf, connect))
  {
    hide Exact, UrlMarks;
    UrlExact(buf, connect);
  }

  /** Both stages in exact numbers. */
  function WideFields(buf: string, connect: bool): Option<map<Field, Slice>> {
    var e := Exact(UrlMarks(Start(connect), buf));
    var h := HostAt(buf, connect);
    HostAtInBounds(buf, connect);
    if UrlRun(Start(connect), buf).UrlDead? then None
    else if SchemaField in e || HostField in e then
      if HostMayEnd(HostRun(HostBegin(HasAt(Start(connect), buf)), buf[h.off..h.off + h.len]))
      then Some((e - {HostField}) + Exact(HostPartMarks(buf, connect))) else None
    else Some(e)
  }

  predicate Fits(m: map<Field, Slice>) { forall f <- m :: m[f].off < TWO_16 && m[f].len < TWO_16 }

  /** Every offset and count of either stage is below 2^16. */
  predicate AllFit(buf: string, connect: bool) {
    HostAtInBounds(buf, connect);
    Fits(Exact(UrlMarks(Start(connect), buf))) && Fits(Exact(HostPartMarks(buf, connect)))
  }

  lemma HostPartExact(buf: string, connect: bool)
    ensures InBounds(buf, HostAt(buf, connect))
    ensures var hm := HostPartMarks(buf, connect); IsSlices(hm, Exact(hm)) && forall f <- Exact(hm) :: StageTwo(f)
  {
    HostAtInBounds(buf, connect);
    hide HostMarks, Exact, IsSlices, Has, StageTwo, HostAt, HasAt;
    var h, s := HostAt(buf, connect), HostBegin(HasAt(Start(connect), buf));
    var text := buf[..h.off + h.len];
    HostContiguous(s, text, h.off);
    ExactSlices(HostMarks(s, text, h.off));
    forall f | f in Exact(HostMarks(s, text, h.off)) ensures StageTwo(f) {
      ExactHas(HostMarks(s, text, h.off), f);
      HostStageTwo(s, text, h.off, f);
    }
  }

  lemma HostPartBefore(buf: string, connect: bool)
    requires InBounds(buf, HostAt(buf, connect))
    ensures var h, hm := HostAt(buf, connect), HostPartMarks(buf, connect);
      |hm| == h.off + h.len && forall k | 0 <= k < h.off :: hm[k] == None
  {
    hide HostAt, HasAt, HostRun;
  }

  /** Whatever its length, in exact numbers the fields of a url hold exactly the characters of each. */
  lemma WideAreSlices(buf: string, connect: bool)
    requires WideFields(buf, connect).Some?
    ensures IsSlices(FieldMarks(buf, connect), WideFields(buf, connect).value)
  {
    hide UrlMarks, HostMarks, IsSlices, HostRun, UrlRun, FieldMarks, Exact, HasAt, StageOne, StageTwo, HostPartMarks;
    UrlExact(buf, connect);
    HostPartExact(buf, connect);
    var u, marks := UrlMarks(Start(connect), buf), FieldMarks(buf, connect);
    var e, h := Exact(u), HostAt(buf, connect);
    var hm := HostPartMarks(buf, connect);
    HostPartBefore(buf, connect);
    forall k | 0 <= k < |buf|
      ensures u[k] == Some(HostField) <==> In(h, k)
      ensures marks[k] == if In(h, k) then hm[k] else u[k]
    {
      HostAtMarks(buf, connect, k);
      FieldMarkIs(buf, connect, k);
    }
    if SchemaField in e || HostField in e {
      CombineSlices(u, e, hm, Exact(hm), marks, h.off, h.off + h.len);
    } else {
      assert marks == u;
    }
  }

  lemma NarrowFits(m: map<Field, Slice>)
    ensures Narrow(m).Keys == m.Keys && Fits(Narrow(m)) && (Fits(m) ==> Narrow(m) == m)
  {
  }

  /** The host part of the narrowed record. */
  function NarrowHost(buf: string, connect: bool): Slice { HostPart(FirstStage(buf, connect)) }

  lemma NarrowHostIs(buf: string, connect: bool)
    ensures var h, n := HostAt(buf, connect), NarrowHost(buf, connect);
      n.off == h.off % TWO_16 && n.len == h.len % TWO_16 && InBounds(buf, n)
  {
    FirstStageInBounds(buf, connect);
    hide Exact, UrlMarks;
  }

  /** The second stage as it is run, on the narrowed host part. */
  function NarrowHostMarks(buf: string, connect: bool): Marks
    requires InBounds(buf, NarrowHost(buf, connect))
  {
    var n := NarrowHost(buf, connect);
    HostMarks(HostBegin(HasAt(Start(connect), buf)), buf[..n.off + n.len], n.off)
  }

  /** The fields it finds end within the narrowed host part. */
  lemma NarrowHostEnds(buf: string, connect: bool)
    requires InBounds(buf, NarrowHost(buf, connect))
    ensures var d, n := Narrow(Exact(NarrowHostMarks(buf, connect))), NarrowHost(buf, connect);
      Fits(d) && forall f <- d :: StageTwo(f) && d[f].off + d[f].len <= n.off + n.len
  {
    hide HostMarks, Exact, IsSlices, Has, StageTwo, HasAt, Narrow, NarrowHost, Fits;
    var n, s := NarrowHost(buf, connect), HostBegin(HasAt(Start(connect), buf));
    var text := buf[..n.off + n.len];
    var hm := HostMarks(s, text, n.off);
    HostContiguous(s, text, n.off);
    ExactSlices(hm);
    NarrowInBounds(hm, Exact(hm));
    NarrowFits(Exact(hm));
    forall f | f in Narrow(Exact(hm)) ensures StageTwo(f) {
      ExactHas(hm, f);
      HostStageTwo(s, text, n.off, f);
    }
  }

  /** Where the host part may end, its last character or the one before is of some field. */
  lemma MayEndMarked(s: HostState, text: string, lo: nat) returns (k: nat)
    requires lo < |text| && HostMayEnd(HostRun(s, text[lo..])) && !s.V6? && !HostMayEnd(s)
    ensures lo <= k < |text| <= k + 2 && HostMarks(s, text, lo)[k].Some?
  {
    hide HostRun, IsUserinfoChar, IsHostChar, IsV6Char, HostMarks;
    var p := |text| - 1;
    k := p;
    HostMarksSnoc(s, text, lo, p);
    HostMarkAt(s, text, lo, p);
    assert text[lo..p + 1] == text[lo..];
    if HostRun(s, text[lo..]).V6End? {
      assert HostRun(s, text[lo..p]).V6?;
      assert text[lo..lo] == [];
      HostNothing(s);
      k := p - 1;
      HostMarkAt(s, text, lo, k);
    }
  }

  lemma HostNothing(s: HostState)
    ensures HostRun(s, []) == s
  {
  }

  lemma HostPartMarked(buf: string, connect: bool) returns (k: nat)
    requires InBounds(buf, HostAt(buf, connect)) && HostAt(buf, connect).len > 0
    requires var h := HostAt(buf, connect); HostMayEnd(HostRun(HostBegin(HasAt(Start(connect), buf)), buf[h.off..h.off + h.len]))
    ensures var h, hm := HostAt(buf, connect), HostPartMarks(buf, connect);
      |hm| == h.off + h.len && h.off <= k < h.off + h.len <= k + 2 && hm[k].Some?
  {
    hide HostRun, HasAt, HostAt, HostMarks;
    var h, s := HostAt(buf, connect), HostBegin(HasAt(Start(connect), buf));
    var text := buf[..h.off + h.len];
    assert text[h.off..] == buf[h.off..h.off + h.len];
    k := MayEndMarked(s, text, h.off);
  }

  lemma SliceHas(marks: Marks, m: map<Field, Slice>, k: nat)
    requires IsSlices(marks, m) && k < |marks| && marks[k].Some?
    ensures marks[k].value in m && In(m[marks[k].value], k)
  {
  }

  /** d is the same in both maps. */
  predicate Within(d: map<Field, Slice>, m: map<Field, Slice>) { forall f <- d :: f in m && m[f] == d[f] }

  /** If the second stage found the same fields in the narrowed host part, that was the whole of it. */
  lemma HostPartFits(buf: string, connect: bool)
    requires InBounds(buf, HostAt(buf, connect)) && InBounds(buf, NarrowHost(buf, connect))
    requires HostAt(buf, connect).len > 0
    requires var h := HostAt(buf, connect); HostMayEnd(HostRun(HostBegin(HasAt(Start(connect), buf)), buf[h.off..h.off + h.len]))
    requires Within(Exact(HostPartMarks(buf, connect)), Narrow(Exact(NarrowHostMarks(buf, connect))))
    ensures HostAt(buf, connect).off < TWO_16 && HostAt(buf, connect).len < TWO_16
  {
    hide HostRun, HasAt, HostAt, NarrowHost, Exact, IsSlices, Narrow, HostPartMarks, NarrowHostMarks, StageTwo, Fits, HostMayEnd;
    var k := HostPartMarked(buf, connect);
    HostPartExact(buf, connect);
    var hm := HostPartMarks(buf, connect);
    SliceHas(hm, Exact(hm), k);
    NarrowHostEnds(buf, connect);
    NarrowHostIs(buf, connect);
  }

  /** Equal results mean equal fields, stage by stage. */
  lemma SameStages(e: map<Field, Slice>, d: map<Field, Slice>, n: map<Field, Slice>, c: map<Field, Slice>)
    requires (e - {HostField}) + d == (n - {HostField}) + c && e.Keys == n.Keys
    requires (forall f <- e :: StageOne(f)) && (forall f <- d :: StageTwo(f)) && (forall f <- c :: StageTwo(f))
    ensures Within(d, c) && Within(e - {HostField}, n)
  {
    var m := (e - {HostField}) + d;
    forall f | f in d ensures f in c && c[f] == d[f] { assert f in m && m[f] == d[f]; }
    forall f | f in e && f != HostField ensures n[f] == e[f] { assert f in m && m[f] == e[f]; }
  }

  lemma AgreeingFit(buf: string, connect: bool)
    requires SplitFields(buf, connect).Some? && WideFields(buf, connect) == SplitFields(buf, connect)
    ensures AllFit(buf, connect)
  {
    hide UrlRun, UrlMarks, HasAt, Exact, HostRun, HostMarks, Narrow, IsSlices, StageOne, StageTwo, Fits;
    HostAtInBounds(buf, connect);
    FirstStageInBounds(buf, connect);
    NarrowHostIs(buf, connect);
    NarrowHostEnds(buf, connect);
    UrlExact(buf, connect);
    HostPartExact(buf, connect);
    var e, d := Exact(UrlMarks(Start(connect), buf)), Exact(HostPartMarks(buf, connect));
    var c := Narrow(Exact(NarrowHostMarks(buf, connect)));
    NarrowFits(e);
    if SchemaField in e || HostField in e {
      SameStages(e, d, Narrow(e), c);
      HostPartNonempty(buf, connect);
      HostPartFits(buf, connect);
      StagesFit(e, d, Narrow(e), c);
    } else {
      NoHostFits(buf, connect);
    }
  }

  lemma HostPartNonempty(buf: string, connect: bool)
    requires InBounds(buf, HostAt(buf, connect))
    requires var h := HostAt(buf, connect); HostMayEnd(HostRun(HostBegin(HasAt(Start(connect), buf)), buf[h.off..h.off + h.len]))
    ensures HostAt(buf, connect).len > 0
  {
    hide HasAt, HostAt, HostRun;
    var h := HostAt(buf, connect);
    HostNonempty(HasAt(Start(connect), buf), buf[h.off..h.off + h.len]);
  }

  lemma StagesFit(e: map<Field, Slice>, d: map<Field, Slice>, n: map<Field, Slice>, c: map<Field, Slice>)
    requires Within(d, c) && Within(e - {HostField}, n) && Fits(n) && Fits(c)
    requires HostField in e ==> e[HostField].off < TWO_16 && e[HostField].len < TWO_16
    ensures Fits(e) && Fits(d)
  {
    forall f | f in e ensures e[f].off < TWO_16 && e[f].len < TWO_16 {
      if f != HostField { assert f in e - {HostField} && n[f] == e[f]; }
    }
  }

  lemma NoHostFits(buf: string, connect: bool)
    requires InBounds(buf, HostAt(buf, connect)) && HostField !in Exact(UrlMarks(Start(connect), buf))
    ensures Fits(Exact(HostPartMarks(buf, connect)))
  {
    hide HasAt, UrlMarks;
    var hm := HostPartMarks(buf, connect);
    assert |hm| == 0;
    forall f: Field ensures f !in Exact(hm) { ExactHas(hm, f); }
  }

  lemma FittingAgree(buf: string, connect: bool)
    requires AllFit(buf, connect)
    ensures WideFields(buf, connect) == SplitFields(buf, connect)
  {
    hide UrlRun, UrlMarks, HasAt, Exact, HostRun, HostMarks, Narrow, HostMayEnd, Fits;
    HostAtInBounds(buf, connect);
    FirstStageInBounds(buf, connect);
    NarrowFits(Exact(UrlMarks(Start(connect), buf)));
    NarrowFits(Exact(HostPartMarks(buf, connect)));
  }

  /** For every url: the fields, or the refusal, are what exact numbers would give if and only if every
      offset and count, of the host part as a whole as well as of what it is divided into, is below
      2^16, or the url is refused either way. */
  lemma FitsExactly(buf: string, connect: bool)
    ensures WideFields(buf, connect) == SplitFields(buf, connect) <==>
      AllFit(buf, connect) || (WideFields(buf, connect).None? && SplitFields(buf, connect).None?)
  {
    hide WideFields, SplitFields, AllFit;
    if AllFit(buf, connect) {
      FittingAgree(buf, connect);
    } else if WideFields(buf, connect) == SplitFields(buf, connect) && SplitFields(buf, connect).Some? {
      AgreeingFit(buf, connect);
    }
  }

  // ---- the port ----

  lemma PortStep(s: HostState, c: char)
    requires HostFieldOf(HostStep(s, c)) == Some(PortField)
    ensures IsNum(c) && HostStep(s, c) == PortDigits
  {
    hide IsUserinfoChar, IsHostChar, IsV6Char;
  }

  /** A character marked as port is a digit that the host automaton read as such. */
  lemma PortMark(buf: string, connect: bool, k: nat)
    requires k < |buf| && FieldMarks(buf, connect)[k] == Some(PortField)
    ensures In(HostAt(buf, connect), k) && IsNum(buf[k])
    ensures HostStateAt(buf, connect, k + 1) == PortDigits
  {
    hide UrlMarks, FieldMarks, HostAt, HostStep, HostFieldOf, IsNum, HostStateAt;
    if In(HostAt(buf, connect), k) {
      InHostPart(buf, connect, k);
      PortStep(HostStateAt(buf, connect, k), buf[k]);
    } else {
      OutsideHostPart(buf, connect, k);
      UrlMarkStageOne(Start(connect), buf, k);
    }
  }

  lemma LeavesHost(s: UrlState, c: char)
    requires FieldOf(s) == Some(HostField) && FieldOf(UrlStep(s, c)) != Some(HostField) && !UrlStep(s, c).UrlDead?
    ensures !IsNum(c)
  {
  }

  /** No digit follows the last one of the port. */
  lemma PortEnds(buf: string, connect: bool, k: nat)
    requires |buf| < TWO_16 && SplitFields(buf, connect).Some? && 0 < k < |buf|
    requires FieldMarks(buf, connect)[k - 1] == Some(PortField) && FieldMarks(buf, connect)[k] != Some(PortField)
    ensures !IsNum(buf[k])
  {
    hide UrlMarks, FieldMarks, HostAt, HostStateAt, UrlRun, SplitFields, UrlStep, FieldOf;
    PortMark(buf, connect, k - 1);
    Alive(buf, connect, k + 1);
    if In(HostAt(buf, connect), k) {
      InHostPart(buf, connect, k);
    } else {
      OutsideHostPart(buf, connect, k);
      HostAtMarks(buf, connect, k - 1);
      UrlMarkAt(Start(connect), buf, k);
      UrlMarkAt(Start(connect), buf, k - 1);
      LeavesHost(UrlRun(Start(connect), buf[..k]), buf[k]);
    }
  }

  /** The digits of the port; when it is the last thing in the buffer, the digits that happen to follow
      in memory count as well. */
  function PortText(buf: string, port: Slice, tail: string): string
    requires InBounds(buf, port)
  {
    buf[port.off..port.off + port.len] + if port.off + port.len < |buf| then [] else tail[..DigitsAhead(tail)]
  }

  lemma PortIsDigits(buf: string, connect: bool, port: Slice)
    requires InBounds(buf, port)
    requires forall k | 0 <= k < |buf| :: FieldMarks(buf, connect)[k] == Some(PortField) <==> In(port, k)
    ensures AllDigits(buf[port.off..port.off + port.len])
  {
    hide FieldMarks, HostAt, HostStateAt, IsNum;
    forall k | port.off <= k < port.off + port.len ensures IsNum(buf[k]) {
      assert In(port, k);
      PortMark(buf, connect, k);
    }
  }

  /** Digits ahead of something that is none. */
  lemma AheadStops(digits: string, rest: string)
    requires AllDigits(digits) && rest != [] && !IsNum(rest[0])
    ensures var text := digits + rest; text[..DigitsAhead(text)] == digits
  {
    var text := digits + rest;
    assert text[..|digits|] == digits && text[|digits|] == rest[0];
    DigitsAheadIs(text, |digits|);
    hide DigitsAhead;
  }

  lemma AheadGoesOn(digits: string, tail: string)
    requires AllDigits(digits)
    ensures var text := digits + tail; text[..DigitsAhead(text)] == digits + tail[..DigitsAhead(tail)]
  {
    var text, n := digits + tail, DigitsAhead(tail);
    assert text[..|digits| + n] == digits + tail[..n];
    assert n < |tail| ==> text[|digits| + n] == tail[n];
    hide DigitsAhead;
    DigitsAheadIs(text, |digits| + n);
  }

  lemma PortTextAhead(buf: string, connect: bool, tail: string, port: Slice)
    requires |buf| < TWO_16 && SplitFields(buf, connect).Some? && InBounds(buf, port) && port.len > 0
    requires forall k | 0 <= k < |buf| :: FieldMarks(buf, connect)[k] == Some(PortField) <==> In(port, k)
    ensures var text := buf[port.off..] + tail; text[..DigitsAhead(text)] == PortText(buf, port, tail)
  {
    hide FieldMarks, SplitFields, DigitsAhead, IsNum, AllDigits;
    var end := port.off + port.len;
    var digits := buf[port.off..end];
    PortIsDigits(buf, connect, port);
    if end < |buf| {
      PortStops(buf, connect, port);
      AheadStops(digits, buf[end..] + tail);
      assert buf[port.off..] + tail == digits + (buf[end..] + tail);
      assert digits + [] == digits;
    } else {
      AheadGoesOn(digits, tail);
      assert buf[port.off..] == digits;
    }
  }

  lemma PortStops(buf: string, connect: bool, port: Slice)
    requires |buf| < TWO_16 && SplitFields(buf, connect).Some? && port.len > 0 && port.off + port.len < |buf|
    requires forall k | 0 <= k < |buf| :: FieldMarks(buf, connect)[k] == Some(PortField) <==> In(port, k)
    ensures !IsNum(buf[port.off + port.len])
  {
    hide FieldMarks, SplitFields, IsNum;
    var end := port.off + port.len;
    assert In(port, end - 1) && !In(port, end);
    PortEnds(buf, connect, end);
  }

  /** The port is the number that its text denotes. */
  lemma PortIsNumber(buf: string, connect: bool, tail: string)
    requires |buf| < TWO_16 && ParsedUrl(buf, connect, tail).Some?
    requires PortField in ParsedUrl(buf, connect, tail).value.fields
    ensures var u := ParsedUrl(buf, connect, tail).value;
      && InBounds(buf, u.fields[PortField])
      && AllDigits(PortText(buf, u.fields[PortField], tail))
      && u.port == DecValue(PortText(buf, u.fields[PortField], tail))
  {
    hide FieldMarks, SplitFields, DecValue, PortText;
    FieldsAreSlices(buf, connect, tail);
    var marks, m := FieldMarks(buf, connect), ParsedUrl(buf, connect, tail).value.fields;
    SliceMarks(marks, m, PortField);
    PortTextAhead(buf, connect, tail, m[PortField]);
  }

  lemma SliceMarks(marks: Marks, m: map<Field, Slice>, f: Field)
    requires IsSlices(marks, m) && f in m
    ensures m[f].len > 0 && m[f].off + m[f].len <= |marks|
    ensures forall k | 0 <= k < |marks| :: marks[k] == Some(f) <==> In(m[f], k)
  {
  }

  // ---- what follows the url in memory ----

  lemma {:induction false} DecAppend(a: string, d: string)
    requires AllDigits(a) && AllDigits(d)
    ensures AllDigits(a + d) && DecValue(a + d) >= DecValue(a) && (d != [] ==> DecValue(a + d) >= 10 * DecValue(a))
    ensures DecValue(a) == 0 ==> DecValue(a + d) == DecValue(d)
    decreases |d|
  {
    if d == [] {
      assert a + d == a;
    } else {
      var n := |d| - 1;
      assert (a + d)[..|a| + n] == a + d[..n];
      DecAppend(a, d[..n]);
    }
  }

  /** More digits leave a number as it is only if both are zero. */
  lemma MoreDigits(a: string, d: string)
    requires AllDigits(a) && AllDigits(d) && d != []
    ensures AllDigits(a + d) && DecValue(a) <= DecValue(a + d)
    ensures DecValue(a + d) == DecValue(a) <==> DecValue(a) == 0 && DecValue(d) == 0
  {
    hide DecValue;
    DecAppend(a, d);
  }

  /** What follows in memory is no part of the port: judged by parsing the url with nothing behind it,
      and by the first character that follows. */
  predicate TailHarmless(buf: string, connect: bool, tail: string) {
    var u := ParsedUrl(buf, connect, []);
    || u.None? || PortField !in u.value.fields
    || u.value.fields[PortField].off + u.value.fields[PortField].len < |buf|
    || tail == [] || !IsNum(tail[0])
    || (u.value.port == 0 && LeadingNumber(tail) == 0)
  }

  lemma PortTexts(buf: string, connect: bool, tail: string)
    requires |buf| < TWO_16 && SplitFields(buf, connect).Some? && PortField in SplitFields(buf, connect).value
    ensures var s := SplitFields(buf, connect).value[PortField];
      && InBounds(buf, s)
      && AllDigits(PortText(buf, s, tail)) && LeadingNumber(buf[s.off..] + tail) == DecValue(PortText(buf, s, tail))
  {
    hide FieldMarks, SplitFields, DecValue, PortText, IsSlices;
    SplitAreSlices(buf, connect);
    var m := SplitFields(buf, connect).value;
    SliceMarks(FieldMarks(buf, connect), m, PortField);
    PortTextAhead(buf, connect, tail, m[PortField]);
  }

  /** What stands in memory behind a url changes nothing, neither the port nor whether the url is
      refused, if and only if it is harmless. */
  lemma TailIff(buf: string, connect: bool, tail: string)
    requires |buf| < TWO_16
    ensures ParsedUrl(buf, connect, tail) == ParsedUrl(buf, connect, []) <==> TailHarmless(buf, connect, tail)
  {
    hide SplitFields, LeadingNumber, DecValue, PortText;
    var r := SplitFields(buf, connect);
    if r.Some? && PortField in r.value {
      PortTexts(buf, connect, tail);
      PortTexts(buf, connect, []);
      PortGrows(buf, r.value[PortField], tail);
    }
  }

  lemma PortGrows(buf: string, s: Slice, tail: string)
    requires InBounds(buf, s) && AllDigits(PortText(buf, s, [])) && AllDigits(PortText(buf, s, tail))
    ensures var v, w := DecValue(PortText(buf, s, [])), DecValue(PortText(buf, s, tail));
      && v <= w
      && (v == w <==> s.off + s.len < |buf| || tail == [] || !IsNum(tail[0]) || (v == 0 && LeadingNumber(tail) == 0))
  {
    hide DecValue;
    var digits, d := PortText(buf, s, []), tail[..DigitsAhead(tail)];
    assert digits == buf[s.off..s.off + s.len];
    if s.off + s.len < |buf| {
      assert PortText(buf, s, tail) == digits;
    } else if d == [] {
      assert PortText(buf, s, tail) == digits + [] == digits;
    } else {
      assert PortText(buf, s, tail) == digits + d;
      MoreDigits(digits, d);
    }
  }
}

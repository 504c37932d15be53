/** The fields of a url, as slices of its text. */
module UrlSlices {

  import opened Wrappers

  datatype Field = SchemaField | HostField | PortField | PathField | QueryField | FragmentField | UserinfoField

  datatype Slice = Slice(off: nat, len: nat)

  /** Which field each character belongs to; delimiters belong to none. */
  type Marks = seq<Option<Field>>

  predicate Has(marks: Marks, f: Field) { Some(f) in marks }

  function First(marks: Marks, f: Field): (i: nat)
    requires Has(marks, f)
    ensures i < |marks| && marks[i] == Some(f) && !Has(marks[..i], f)
  {
    var n := |marks| - 1;
    assert marks == marks[..n] + [marks[n]];
    if Has(marks[..n], f) then
      var i := First(marks[..n], f);
      assert marks[..n][..i] == marks[..i];
      i
    else n
  }

  function Count(marks: Marks, f: Field): nat { multiset(marks)[Some(f)] }

  /** Every field with where it starts and how many characters it has. */
  function Exact(marks: Marks): map<Field, Slice> {
    map f: Field | Has(marks, f) :: Slice(First(marks, f), Count(marks, f))
  }

  predicate In(s: Slice, k: int) { s.off <= k < s.off + s.len }

  /** The slices are non-empty and hold exactly the characters of their fields. */
  ghost predicate IsSlices(marks: Marks, m: map<Field, Slice>) {
    && (forall f <- m :: 0 < m[f].len && m[f].off + m[f].len <= |marks|)
    && (forall f <- m, k | In(m[f], k) && 0 <= k < |marks| :: marks[k] == Some(f))
    && (forall k | 0 <= k < |marks| && marks[k].Some? :: marks[k].value in m && In(m[marks[k].value], k))
  }

  lemma AppendAt(marks: Marks, x: Option<Field>, f: Field)
    ensures var all := marks + [x];
      && (Has(all, f) <==> Has(marks, f) || x == Some(f))
      && Count(all, f) == Count(marks, f) + (if x == Some(f) then 1 else 0)
      && (Has(marks, f) ==> First(all, f) == First(marks, f))
      && (!Has(marks, f) ==> Count(marks, f) == 0 && (x == Some(f) ==> First(all, f) == |marks|))
  {
    assert (marks + [x])[..|marks|] == marks;
  }

  /** What reading one more character does to the slices: its field grows by one, or starts here. */
  function Extended(m: map<Field, Slice>, x: Option<Field>, at: nat): map<Field, Slice> {
    if x.None? then m
    else if x.value in m then m[x.value := Slice(m[x.value].off, m[x.value].len + 1)]
    else m[x.value := Slice(at, 1)]
  }

  lemma ExactAppend(marks: Marks, x: Option<Field>)
    ensures Exact(marks + [x]) == Extended(Exact(marks), x, |marks|)
  {
    forall f: Field { AppendAt(marks, x, f); }
    hide First, Count, Has;
    var l, r := Exact(marks + [x]), Extended(Exact(marks), x, |marks|);
    assert forall f :: f in l <==> f in r;
    assert forall f | f in l :: l[f] == r[f];
  }

  /** Characters of one field stand together. */
  ghost predicate Contiguous(marks: Marks) {
    forall i, k, j | 0 <= i < k < j < |marks| && marks[i].Some? && marks[i] == marks[j] :: marks[k] == marks[i]
  }

  lemma SliceEnds(rest: Marks, x: Option<Field>, m: map<Field, Slice>)
    requires IsSlices(rest, m) && Contiguous(rest + [x]) && x.Some? && x.value in m
    ensures m[x.value].off + m[x.value].len == |rest|
  {
    var marks, i, n := rest + [x], m[x.value].off, |rest|;
    assert rest[i] == x;
    assert marks[i] == x && marks[n] == x;
    if i < n - 1 { assert marks[n - 1] == x; }
    assert rest[n - 1] == x;
  }

  lemma SlicesExtend(rest: Marks, x: Option<Field>, m: map<Field, Slice>)
    requires IsSlices(rest, m) && Contiguous(rest + [x])
    ensures IsSlices(rest + [x], Extended(m, x, |rest|))
  {
    if x.Some? && x.value in m { SliceEnds(rest, x, m); }
    hide Contiguous;
    var marks, e := rest + [x], Extended(m, x, |rest|);
    forall f, k | f in e && In(e[f], k) && 0 <= k < |marks| ensures marks[k] == Some(f) {
      if k < |rest| { assert f in m && In(m[f], k); }
    }
    forall k | 0 <= k < |marks| && marks[k].Some? ensures marks[k].value in e && In(e[marks[k].value], k) {
      if k < |rest| { assert rest[k] == marks[k]; }
    }
  }

  /** Then where a field starts and how many characters it has describe it as a slice. */
  lemma {:induction false} ExactSlices(marks: Marks)
    requires Contiguous(marks)
    ensures IsSlices(marks, Exact(marks))
    decreases |marks|
  {
    if marks != [] {
      var n := |marks| - 1;
      var rest, x := marks[..n], marks[n];
      assert marks == rest + [x];
      ExactSlices(rest);
      ExactAppend(rest, x);
      hide Exact, IsSlices;
      SlicesExtend(rest, x, Exact(rest));
    }
  }

  /** Marks that follow a rank that only grows are contiguous. */
  lemma RanksContiguous(marks: Marks, ranks: seq<nat>)
    requires |marks| == |ranks|
    requires forall i, j | 0 <= i < j < |ranks| :: ranks[i] <= ranks[j]
    requires forall i, j | 0 <= i < j < |marks| && marks[i].Some? :: marks[i] == marks[j] <==> ranks[i] == ranks[j]
    ensures Contiguous(marks)
  {
  }
}

/** Cutting a url into fields: `http_parser_parse_url` and `http_parse_host`. */
module UrlParser {

  import opened Wrappers
  import opened HttpTypes
  import opened HttpChars
  import opened UrlAutomaton
  import opened Numbers
  import opened UrlSlices

  /** The set fields and where they are, and the port as a number. */
  datatype UrlRecord = UrlRecord(fields: map<Field, Slice>, port: nat)

  // ---- first stage: the url automaton ----

  function Start(connect: bool): UrlState { if connect then ServerStart else SpacesBefore }

  /** The field that a character belongs to, by the state it leads to. */
  function FieldOf(s: UrlState): Option<Field> {
    if s.Schema? then Some(SchemaField)
    else if s.Server? || s.ServerWithAt? then Some(HostField)
    else if s.Path? then Some(PathField)
    else if s.Query? then Some(QueryField)
    else if s.Fragment? then Some(FragmentField)
    else None
  }

  function UrlMarks(s: UrlState, buf: string): (marks: Marks)
    ensures |marks| == |buf|
  {
    seq(|buf|, k requires 0 <= k < |buf| => FieldOf(UrlRun(s, buf[..k + 1])))
  }

  /** The order in which the automaton passes through its states; it never goes back. */
  function UrlRank(s: UrlState): nat {
    match s
    case SpacesBefore => 0
    case Schema => 1
    case SchemaSlash => 2
    case SchemaSlashSlash => 2
    case ServerStart => 2
    case Server => 3
    case ServerWithAt => 3
    case Path => 4
    case QueryStart => 5
    case Query => 6
    case FragmentStart => 7
    case Fragment => 8
    case UrlDead => 9
  }

  lemma UrlStepRank(s: UrlState, c: char)
    ensures UrlRank(s) <= UrlRank(UrlStep(s, c))
  {
    hide IsUserinfoChar, IsUrlChar, IsAlpha;
  }

  lemma {:induction false} UrlRankGrows(s: UrlState, buf: string, i: nat, j: nat)
    requires i <= j <= |buf|
    ensures UrlRank(UrlRun(s, buf[..i])) <= UrlRank(UrlRun(s, buf[..j]))
    decreases j
  {
    hide UrlStep, UrlRank, UrlRun;
    if i < j {
      UrlRankGrows(s, buf, i, j - 1);
      assert buf[..j] == buf[..j - 1] + [buf[j - 1]];
      UrlRunSnoc(s, buf[..j - 1], buf[j - 1]);
      UrlStepRank(UrlRun(s, buf[..j - 1]), buf[j - 1]);
    }
  }

  lemma FieldByRank(a: UrlState, b: UrlState)
    requires FieldOf(a).Some?
    ensures FieldOf(a) == FieldOf(b) <==> UrlRank(a) == UrlRank(b)
  {
  }

  lemma UrlContiguous(s: UrlState, buf: string)
    ensures Contiguous(UrlMarks(s, buf))
  {
    hide UrlRun, UrlRank, FieldOf;
    var states := seq(|buf|, k requires 0 <= k < |buf| => UrlRun(s, buf[..k + 1]));
    var ranks := seq(|buf|, k requires 0 <= k < |buf| => UrlRank(states[k]));
    forall i, j | 0 <= i < j < |ranks| ensures ranks[i] <= ranks[j] {
      UrlRankGrows(s, buf, i + 1, j + 1);
    }
    forall i, j | 0 <= i < j < |ranks| && FieldOf(states[i]).Some?
      ensures FieldOf(states[i]) == FieldOf(states[j]) <==> ranks[i] == ranks[j]
    {
      FieldByRank(states[i], states[j]);
    }
    RanksContiguous(UrlMarks(s, buf), ranks);
  }

  /** Whether some character leads to the state behind an '@'. */
  predicate HasAt(s: UrlState, buf: string) {
    buf != [] && (UrlRun(s, buf).ServerWithAt? || HasAt(s, buf[..|buf| - 1]))
  }

  // ---- 16-bit offsets and lengths ----

  const TWO_16 := 65536

  function Narrow(m: map<Field, Slice>): map<Field, Slice> {
    map f | f in m :: Slice(m[f].off % TWO_16, m[f].len % TWO_16)
  }

  /** A character of field f was read at `at`, and `same` says that the last marked character was of
      the same field: one step of either stage on its 16-bit record. */
  function Noted(fields: map<Field, Slice>, f: Field, same: bool, at: nat): map<Field, Slice> {
    if same && f in fields then fields[f := Slice(fields[f].off, (fields[f].len + 1) % TWO_16)]
    else fields[f := Slice(at % TWO_16, 1)]
  }

  lemma NotedNarrow(m: map<Field, Slice>, f: Field, at: nat)
    ensures Narrow(Extended(m, Some(f), at)) == Noted(Narrow(m), f, f in m, at)
  {
  }

  /** What both loops keep: the record is the exact slices narrowed, and `last` is the field of the
      last marked character. */
  ghost predicate Tracks(marks: Marks, fields: map<Field, Slice>, last: Option<Field>) {
    && fields == Narrow(Exact(marks))
    && (last.Some? ==> last.value in fields)
    && (marks != [] && marks[|marks| - 1].Some? ==> last == marks[|marks| - 1])
  }

  lemma SeenLast(marks: Marks, f: Field)
    requires Contiguous(marks + [Some(f)]) && Has(marks, f)
    ensures marks[|marks| - 1] == Some(f)
  {
    var all, i, n := marks + [Some(f)], First(marks, f), |marks|;
    assert all[i] == Some(f) && all[n] == Some(f);
    if i < n - 1 { assert all[n - 1] == Some(f); }
  }

  /** A field already seen was seen last, as fields are contiguous; so comparing with the last field
      tells a new one. */
  lemma TracksNoted(marks: Marks, fields: map<Field, Slice>, last: Option<Field>, f: Field)
    requires Tracks(marks, fields, last) && Contiguous(marks + [Some(f)])
    ensures Tracks(marks + [Some(f)], Noted(fields, f, last == Some(f), |marks|), Some(f))
  {
    if Has(marks, f) { SeenLast(marks, f); }
    ExactAppend(marks, Some(f));
    assert f in Exact(marks) <==> Has(marks, f);
    hide Contiguous, Exact;
    NotedNarrow(Exact(marks), f, |marks|);
    assert f in Narrow(Exact(marks)) <==> f in Exact(marks);
    hide Narrow;
  }

  lemma TracksSkipped(marks: Marks, fields: map<Field, Slice>, last: Option<Field>)
    requires Tracks(marks, fields, last)
    ensures Tracks(marks + [None], fields, last)
  {
    ExactAppend(marks, None);
  }

  lemma UrlMarksSnoc(s: UrlState, buf: string, p: nat)
    requires p < |buf|
    ensures UrlRun(s, buf[..p + 1]) == UrlStep(UrlRun(s, buf[..p]), buf[p])
    ensures UrlMarks(s, buf[..p + 1]) == UrlMarks(s, buf[..p]) + [FieldOf(UrlRun(s, buf[..p + 1]))]
    ensures HasAt(s, buf[..p + 1]) <==> HasAt(s, buf[..p]) || UrlRun(s, buf[..p + 1]).ServerWithAt?
  {
    assert buf[..p + 1] == buf[..p] + [buf[p]];
    UrlRunSnoc(s, buf[..p], buf[p]);
    assert forall k | 0 <= k <= p :: buf[..p + 1][..k] == buf[..p][..k] == buf[..k];
    assert buf[..p + 1][..p + 1] == buf[..p + 1];
    hide UrlRun, UrlStep;
  }

  /** The main loop of http_parser_parse_url. */
  method Split(buf: string, connect: bool) returns (ok: bool, fields: map<Field, Slice>, foundAt: bool)
    ensures ok <==> !UrlRun(Start(connect), buf).UrlDead?
    ensures ok ==> fields == Narrow(Exact(UrlMarks(Start(connect), buf)))
    ensures ok ==> (foundAt <==> HasAt(Start(connect), buf))
  {
    hide UrlStep, UrlRank, UrlRun, UrlMarks, HasAt, FieldOf, Noted, Tracks;
    ghost var start := Start(connect);
    var s, uf := Start(connect), None;
    ok, fields, foundAt := true, map[], false;
    var p := 0;
    StartTracks(start, buf);
    while p < |buf|
      invariant p <= |buf| && s == UrlRun(start, buf[..p]) && !s.UrlDead?
      invariant Tracks(UrlMarks(start, buf[..p]), fields, uf)
      invariant foundAt <==> HasAt(start, buf[..p])
    {
      UrlMarksSnoc(start, buf, p);
      UrlContiguous(start, buf[..p + 1]);
      s := UrlStep(s, buf[p]);
      if s.UrlDead? {
        StaysDead(start, buf, p + 1);
        return false, map[], false;
      }
      foundAt := foundAt || s.ServerWithAt?;
      var f := FieldOf(s);
      if f.Some? {
        TracksNoted(UrlMarks(start, buf[..p]), fields, uf, f.value);
        fields := Noted(fields, f.value, uf == f, p);
        uf := f;
      } else {
        TracksSkipped(UrlMarks(start, buf[..p]), fields, uf);
      }
      p := p + 1;
    }
    assert buf[..p] == buf;
    TracksExact(UrlMarks(start, buf), fields, uf);
  }

  lemma StartTracks(s: UrlState, buf: string)
    ensures buf[..0] == [] && UrlRun(s, []) == s && !HasAt(s, []) && UrlMarks(s, []) == []
    ensures Tracks([], map[], None)
  {
  }

  lemma TracksExact(marks: Marks, fields: map<Field, Slice>, last: Option<Field>)
    requires Tracks(marks, fields, last)
    ensures fields == Narrow(Exact(marks))
  {
  }

  lemma StaysDead(s: UrlState, buf: string, p: nat)
    requires p <= |buf| && UrlRun(s, buf[..p]).UrlDead?
    ensures UrlRun(s, buf).UrlDead?
  {
    UrlRankGrows(s, buf, p, |buf|);
    assert buf[..|buf|] == buf;
    hide UrlRun;
  }

  // ---- second stage: the host automaton ----

  datatype HostState =
    | HostDead | UserinfoStart | Userinfo | HostStart | V6Start | HostName | V6 | V6End | PortStart | PortDigits

  /** http_parse_host_char */
  function HostStep(s: HostState, ch: char): HostState {
    match s
    case UserinfoStart => UserinfoStep(ch)
    case Userinfo => UserinfoStep(ch)
    case HostStart => if ch == '[' then V6Start else if IsHostChar(ch) then HostName else HostDead
    case HostName => if IsHostChar(ch) then HostName else if ch == ':' then PortStart else HostDead
    case V6End => if ch == ':' then PortStart else HostDead
    case V6 => if ch == ']' then V6End else if IsV6Char(ch) then V6 else HostDead
    case V6Start => if IsV6Char(ch) then V6 else HostDead
    case PortStart => if IsNum(ch) then PortDigits else HostDead
    case PortDigits => if IsNum(ch) then PortDigits else HostDead
    case HostDead => HostDead
  }

  function UserinfoStep(ch: char): HostState {
    if ch == '@' then HostStart else if IsUserinfoChar(ch) then Userinfo else HostDead
  }

  predicate IsV6Char(c: char) { IsHex(c) || c == ':' || c == '.' }

  function HostRun(s: HostState, w: string): HostState {
    if w == [] then s else HostStep(HostRun(s, w[..|w| - 1]), w[|w| - 1])
  }

  function HostFieldOf(s: HostState): Option<Field> {
    if s.HostName? || s.V6? then Some(HostField)
    else if s.PortDigits? then Some(PortField)
    else if s.Userinfo? then Some(UserinfoField)
    else None
  }

  function HostBegin(foundAt: bool): HostState { if foundAt then UserinfoStart else HostStart }

  /** The host part may end here. */
  predicate HostMayEnd(s: HostState) { s.HostName? || s.V6End? || s.PortDigits? }

  /** The marks of text[lo..] read as a host part; nothing before it is marked. */
  function HostMarks(s: HostState, text: string, lo: nat): (marks: Marks)
    requires lo <= |text|
    ensures |marks| == |text|
  {
    seq(|text|, k requires 0 <= k < |text| => if k < lo then None else HostFieldOf(HostRun(s, text[lo..k + 1])))
  }

  function HostRank(s: HostState): nat {
    match s
    case UserinfoStart => 0
    case Userinfo => 1
    case HostStart => 2
    case V6Start => 3
    case HostName => 4
    case V6 => 4
    case V6End => 5
    case PortStart => 6
    case PortDigits => 7
    case HostDead => 8
  }

  lemma HostStepRank(s: HostState, c: char)
    ensures HostRank(s) <= HostRank(HostStep(s, c))
    ensures HostFieldOf(s).Some? ==> (HostFieldOf(HostStep(s, c)) == HostFieldOf(s) <==> HostStep(s, c) == s)
  {
    hide IsUserinfoChar, IsHostChar, IsV6Char;
  }

  lemma {:induction false} HostRankGrows(s: HostState, w: string, i: nat, j: nat)
    requires i <= j <= |w|
    ensures HostRank(HostRun(s, w[..i])) <= HostRank(HostRun(s, w[..j]))
    decreases j
  {
    hide HostStep, HostRank;
    if i < j {
      HostRankGrows(s, w, i, j - 1);
      assert w[..j][..j - 1] == w[..j - 1];
      HostStepRank(HostRun(s, w[..j - 1]), w[j - 1]);
    }
  }

  lemma HostFieldByRank(a: HostState, b: HostState)
    requires HostFieldOf(a).Some?
    ensures HostFieldOf(a) == HostFieldOf(b) <==> HostRank(a) == HostRank(b)
  {
  }

  lemma HostContiguous(s: HostState, text: string, lo: nat)
    requires lo <= |text|
    ensures Contiguous(HostMarks(s, text, lo))
  {
    hide HostRun, HostRank, HostFieldOf;
    var marks := HostMarks(s, text, lo);
    forall i, k, j | 0 <= i < k < j < |marks| && marks[i].Some? && marks[i] == marks[j] ensures marks[k] == marks[i] {
      var w := text[lo..];
      assert text[lo..i + 1] == w[..i + 1 - lo] && text[lo..j + 1] == w[..j + 1 - lo] && text[lo..k + 1] == w[..k + 1 - lo];
      HostRankGrows(s, w, i + 1 - lo, k + 1 - lo);
      HostRankGrows(s, w, k + 1 - lo, j + 1 - lo);
      HostFieldByRank(HostRun(s, text[lo..i + 1]), HostRun(s, text[lo..j + 1]));
      HostFieldByRank(HostRun(s, text[lo..i + 1]), HostRun(s, text[lo..k + 1]));
    }
  }

  lemma HostMarksSnoc(s: HostState, text: string, lo: nat, p: nat)
    requires lo <= p < |text|
    ensures HostRun(s, text[lo..p + 1]) == HostStep(HostRun(s, text[lo..p]), text[p])
    ensures HostMarks(s, text[..p + 1], lo) == HostMarks(s, text[..p], lo) + [HostFieldOf(HostRun(s, text[lo..p + 1]))]
  {
    assert text[lo..p + 1][..p - lo] == text[lo..p];
    hide HostRun, HostStep, HostFieldOf;
    var l, r := HostMarks(s, text[..p + 1], lo), HostMarks(s, text[..p], lo) + [HostFieldOf(HostRun(s, text[lo..p + 1]))];
    forall k | 0 <= k <= p ensures l[k] == r[k] {
      if k >= lo { assert text[..p + 1][lo..k + 1] == text[lo..k + 1]; }
      if lo <= k < p { assert text[..p][lo..k + 1] == text[lo..k + 1]; }
    }
  }

  function HostPart(fields: map<Field, Slice>): Slice {
    if HostField in fields then fields[HostField] else Slice(0, 0)
  }

  predicate InBounds(buf: string, s: Slice) { s.off + s.len <= |buf| }

  /** What the second stage makes of the fields of the first. */
  function HostSplit(buf: string, fields: map<Field, Slice>, foundAt: bool): Option<map<Field, Slice>>
    requires InBounds(buf, HostPart(fields))
  {
    var lo, hi := HostPart(fields).off, HostPart(fields).off + HostPart(fields).len;
    if HostMayEnd(HostRun(HostBegin(foundAt), buf[lo..hi])) then
      Some((fields - {HostField}) + Narrow(Exact(HostMarks(HostBegin(foundAt), buf[..hi], lo))))
    else None
  }

  lemma HostStaysDead(s: HostState, w: string, i: nat)
    requires i <= |w| && HostRun(s, w[..i]).HostDead?
    ensures HostRun(s, w).HostDead?
  {
    HostRankGrows(s, w, i, |w|);
    assert w[..|w|] == w;
    hide HostRun;
  }

  /** The automaton only gets behind the host name by reading one. */
  lemma {:induction false} HostSeen(foundAt: bool, text: string, lo: nat)
    requires lo <= |text|
    requires var s := HostRun(HostBegin(foundAt), text[lo..]); HostMayEnd(s) || s.V6? || s.PortStart?
    ensures Has(HostMarks(HostBegin(foundAt), text, lo), HostField)
    decreases |text|
  {
    var s0 := HostBegin(foundAt);
    if lo < |text| {
      var p := |text| - 1;
      assert text[..p + 1] == text;
      HostMarksSnoc(s0, text, lo, p);
      assert text[lo..p + 1] == text[lo..] && text[..p][lo..] == text[lo..p];
      hide HostRun, HostMarks, IsUserinfoChar, IsHostChar, IsV6Char;
      var s := HostRun(s0, text[lo..p]);
      if HostFieldOf(HostStep(s, text[p])) != Some(HostField) {
        HostSeen(foundAt, text[..p], lo);
      }
    }
  }

  lemma HostTracksStart(foundAt: bool, buf: string, lo: nat)
    requires lo <= |buf|
    ensures var s := HostBegin(foundAt);
      HostRun(s, buf[lo..lo]) == s && Tracks(HostMarks(s, buf[..lo], lo), map[], HostFieldOf(s))
  {
    var s := HostBegin(foundAt);
    var marks := HostMarks(s, buf[..lo], lo);
    assert forall f: Field :: !Has(marks, f);
  }

  function Advanced(cut: map<Field, Slice>, s: HostState, next: HostState, p: nat): map<Field, Slice> {
    var f := HostFieldOf(next);
    if f.Some? then Noted(cut, f.value, s == next, p) else cut
  }

  /** One step: a field goes on exactly when the automaton stays in its state. */
  lemma HostAdvance(start: HostState, buf: string, lo: nat, p: nat, cut: map<Field, Slice>)
    requires lo <= p < |buf|
    requires Tracks(HostMarks(start, buf[..p], lo), cut, HostFieldOf(HostRun(start, buf[lo..p])))
    ensures var s, next := HostRun(start, buf[lo..p]), HostRun(start, buf[lo..p + 1]);
      && next == HostStep(s, buf[p])
      && Tracks(HostMarks(start, buf[..p + 1], lo), Advanced(cut, s, next, p), HostFieldOf(next))
      && (HostFieldOf(next).Some? ==> (HostFieldOf(next).value in cut <==> s == next))
  {
    var marks, s := HostMarks(start, buf[..p], lo), HostRun(start, buf[lo..p]);
    HostMarksSnoc(start, buf, lo, p);
    HostContiguous(start, buf[..p + 1], lo);
    HostStepRank(s, buf[p]);
    var f := HostFieldOf(HostStep(s, buf[p]));
    if f.Some? {
      hide HostStep, HostRun, HostMarks, HostFieldOf, Noted;
      TracksNoted(marks, cut, HostFieldOf(s), f.value);
      TracksLast(marks, cut, HostFieldOf(s), f.value);
    } else {
      hide HostStep, HostRun, HostMarks, HostFieldOf, Tracks;
      TracksSkipped(marks, cut, HostFieldOf(s));
    }
  }

  lemma TracksLast(marks: Marks, fields: map<Field, Slice>, last: Option<Field>, f: Field)
    requires Tracks(marks, fields, last) && Contiguous(marks + [Some(f)])
    ensures f in fields <==> last == Some(f)
  {
    if f in fields {
      assert Has(marks, f);
      SeenLast(marks, f);
    }
  }

  /** The record that http_parse_host builds agrees with the cut-out fields; the host, whose flag the
      first stage set, is kept apart. */
  predicate Recorded(fields: map<Field, Slice>, cut: map<Field, Slice>, r: map<Field, Slice>, host: Slice) {
    && r == fields + (cut - {HostField})
    && if HostField in cut then host == cut[HostField] else host.len == 0
  }

  lemma NextField(s: HostState)
    ensures HostFieldOf(s) ==
      if s.HostName? || s.V6? then Some(HostField)
      else if s.PortDigits? then Some(PortField)
      else if s.Userinfo? then Some(UserinfoField)
      else None
  {
  }

  lemma RecordStart(fields: map<Field, Slice>, lo: nat)
    ensures Recorded(fields, map[], fields, Slice(lo, 0))
  {
  }

  lemma RecordField(fields: map<Field, Slice>, cut: map<Field, Slice>, r: map<Field, Slice>, host: Slice, f: Field, p: nat)
    requires Recorded(fields, cut, r, host) && f != HostField && f !in fields
    ensures Recorded(fields, Noted(cut, f, f in cut, p), Noted(r, f, f in cut, p), host)
  {
    assert f in r <==> f in cut;
    var n := Noted(cut, f, f in cut, p);
    assert Noted(r, f, f in cut, p) == r[f := n[f]];
    assert n - {HostField} == (cut - {HostField})[f := n[f]];
    hide Noted;
  }

  lemma RecordHost(fields: map<Field, Slice>, cut: map<Field, Slice>, r: map<Field, Slice>, host: Slice, p: nat)
    requires Recorded(fields, cut, r, host)
    ensures var goesOn := HostField in cut;
      Recorded(fields, Noted(cut, HostField, goesOn, p), r,
        Slice(if goesOn then host.off else p % TWO_16, (host.len + 1) % TWO_16))
  {
    assert Noted(cut, HostField, HostField in cut, p) - {HostField} == cut - {HostField};
  }

  lemma RecordEnds(fields: map<Field, Slice>, cut: map<Field, Slice>, r: map<Field, Slice>, host: Slice)
    requires Recorded(fields, cut, r, host) && HostField in cut
    ensures r[HostField := host] == (fields - {HostField}) + cut
  {
  }

  /** http_parse_host: cuts the host part that the first stage found. */
  method ParseHost(buf: string, fields: map<Field, Slice>, foundAt: bool)
    returns (ok: bool, r: map<Field, Slice>)
    requires InBounds(buf, HostPart(fields)) && UserinfoField !in fields && PortField !in fields
    ensures ok == HostSplit(buf, fields, foundAt).Some?
    ensures ok ==> r == HostSplit(buf, fields, foundAt).value
  {
    hide HostStep, HostRun, HostMarks, Tracks, Exact, Noted, Recorded, Has, Narrow, HostFieldOf, Contiguous, IsSlices;
    var lo, hi := HostPart(fields).off, HostPart(fields).off + HostPart(fields).len;
    var s := HostBegin(foundAt);
    ghost var start := s;
    ghost var cut: map<Field, Slice> := map[];
    var host := Slice(lo, 0);
    r := fields;
    var p := lo;
    HostTracksStart(foundAt, buf, lo);
    RecordStart(fields, lo);
    while p < hi
      invariant lo <= p <= hi && s == HostRun(start, buf[lo..p]) && !s.HostDead?
      invariant Tracks(HostMarks(start, buf[..p], lo), cut, HostFieldOf(s))
      invariant Recorded(fields, cut, r, host)
    {
      HostAdvance(start, buf, lo, p, cut);
      var next := HostStep(s, buf[p]);
      if next.HostDead? {
        assert buf[lo..hi][..p + 1 - lo] == buf[lo..p + 1];
        HostStaysDead(start, buf[lo..hi], p + 1 - lo);
        return false, map[];
      }
      NextField(next);
      if next.HostName? || next.V6? {
        RecordHost(fields, cut, r, host, p);
        host := Slice(if s == next then host.off else p % TWO_16, (host.len + 1) % TWO_16);
      } else if next.PortDigits? {
        RecordField(fields, cut, r, host, PortField, p);
        r := Noted(r, PortField, s == next, p);
      } else if next.Userinfo? {
        RecordField(fields, cut, r, host, UserinfoField, p);
        r := Noted(r, UserinfoField, s == next, p);
      }
      cut := Advanced(cut, s, next, p);
      s := next;
      p := p + 1;
    }
    ok := HostMayEnd(s);
    HostCut(start, buf, lo, hi, cut);
    if ok {
      HostSeen(foundAt, buf[..hi], lo);
      RecordEnds(fields, cut, r, host);
      HostNonempty(foundAt, buf[lo..hi]);
    }
    if HostField in fields { r := r[HostField := host]; }
  }

  lemma HostNonempty(foundAt: bool, w: string)
    requires HostMayEnd(HostRun(HostBegin(foundAt), w))
    ensures w != []
  {
  }

  lemma HostCut(start: HostState, buf: string, lo: nat, hi: nat, cut: map<Field, Slice>)
    requires lo <= hi <= |buf| && Tracks(HostMarks(start, buf[..hi], lo), cut, HostFieldOf(HostRun(start, buf[lo..hi])))
    ensures cut == Narrow(Exact(HostMarks(start, buf[..hi], lo)))
    ensures HostField in cut <==> Has(HostMarks(start, buf[..hi], lo), HostField)
    ensures buf[..hi][lo..] == buf[lo..hi]
  {
  }

  // ---- the whole function ----

  /** How many digits a text begins with. */
  function DigitsAhead(text: string): (n: nat)
    ensures n <= |text| && AllDigits(text[..n]) && (n < |text| ==> !IsNum(text[n]))
  {
    if text == [] || !IsNum(text[0]) then 0
    else
      var n := 1 + DigitsAhead(text[1..]);
      assert text[..n] == [text[0]] + text[1..][..n - 1];
      n
  }

  /** strtoul: the number that the digits at the start of a text denote. */
  function LeadingNumber(text: string): nat { DecValue(text[..DigitsAhead(text)]) }

  lemma {:induction false} DigitsAheadIs(text: string, n: nat)
    requires n <= |text| && AllDigits(text[..n]) && (n < |text| ==> !IsNum(text[n]))
    ensures DigitsAhead(text) == n
  {
    var d := DigitsAhead(text);
    hide DigitsAhead;
    forall i | 0 <= i < n ensures IsNum(text[i]) { assert text[..n][i] == text[i]; }
    forall i | 0 <= i < d ensures IsNum(text[i]) { assert text[..d][i] == text[i]; }
  }

  method ReadNumber(text: string) returns (v: nat)
    ensures v == LeadingNumber(text)
  {
    var i := 0;
    v := 0;
    while i < |text| && IsNum(text[i])
      invariant i <= |text| && AllDigits(text[..i]) && v == DecValue(text[..i])
    {
      v := 10 * v + Digit(text[i]);
      assert text[..i + 1][..i] == text[..i];
      i := i + 1;
    }
    DigitsAheadIs(text, i);
  }

  function FirstStage(buf: string, connect: bool): map<Field, Slice> {
    Narrow(Exact(UrlMarks(Start(connect), buf)))
  }

  lemma NarrowInBounds(marks: Marks, m: map<Field, Slice>)
    requires IsSlices(marks, m)
    ensures forall f <- Narrow(m) :: Narrow(m)[f].off + Narrow(m)[f].len <= |marks|
  {
    forall f | f in m ensures m[f].off % TWO_16 <= m[f].off && m[f].len % TWO_16 <= m[f].len {}
  }

  lemma FirstStageFields(s: UrlState, buf: string)
    ensures var m := Narrow(Exact(UrlMarks(s, buf))); UserinfoField !in m && PortField !in m
  {
    hide UrlRun, First, Count;
    var marks := UrlMarks(s, buf);
    forall k | 0 <= k < |marks| ensures marks[k] != Some(UserinfoField) && marks[k] != Some(PortField) {
      assert marks[k] == FieldOf(UrlRun(s, buf[..k + 1]));
    }
    hide UrlMarks;
  }

  /** Truncated or not, the slices of the first stage lie in the buffer. */
  lemma FirstStageInBounds(buf: string, connect: bool)
    ensures forall f <- FirstStage(buf, connect) :: InBounds(buf, FirstStage(buf, connect)[f])
    ensures InBounds(buf, HostPart(FirstStage(buf, connect)))
    ensures UserinfoField !in FirstStage(buf, connect) && PortField !in FirstStage(buf, connect)
  {
    var marks := UrlMarks(Start(connect), buf);
    UrlContiguous(Start(connect), buf);
    ExactSlices(marks);
    FirstStageFields(Start(connect), buf);
    hide UrlMarks, Exact;
    NarrowInBounds(marks, Exact(marks));
    hide Narrow;
  }

  lemma HostSplitInBounds(buf: string, fields: map<Field, Slice>, foundAt: bool)
    requires InBounds(buf, HostPart(fields)) && forall f <- fields :: InBounds(buf, fields[f])
    ensures HostSplit(buf, fields, foundAt).Some? ==>
      forall f <- HostSplit(buf, fields, foundAt).value :: InBounds(buf, HostSplit(buf, fields, foundAt).value[f])
  {
    hide HostMarks, Exact, HostRun, Narrow, IsSlices, Contiguous;
    var lo, hi := HostPart(fields).off, HostPart(fields).off + HostPart(fields).len;
    var marks := HostMarks(HostBegin(foundAt), buf[..hi], lo);
    HostContiguous(HostBegin(foundAt), buf[..hi], lo);
    ExactSlices(marks);
    NarrowInBounds(marks, Exact(marks));
  }

  /** Both stages. */
  function SplitFields(buf: string, connect: bool): (r: Option<map<Field, Slice>>)
    ensures r.Some? ==> forall f <- r.value :: InBounds(buf, r.value[f])
  {
    var fields := FirstStage(buf, connect);
    FirstStageInBounds(buf, connect);
    HostSplitInBounds(buf, fields, HasAt(Start(connect), buf));
    if UrlRun(Start(connect), buf).UrlDead? then None
    else if SchemaField in fields || HostField in fields then HostSplit(buf, fields, HasAt(Start(connect), buf))
    else Some(fields)
  }

  /** What http_parser_parse_url returns; `tail` is what stands in memory behind the buffer, where
      strtoul reads on when the port is the last thing in the buffer. */
  function ParsedUrl(buf: string, connect: bool, tail: string): Option<UrlRecord> {
    var r := SplitFields(buf, connect);
    if r.None? then None
    else if connect && r.value.Keys != {HostField, PortField} then None
    else if PortField in r.value then
      var v := LeadingNumber(buf[r.value[PortField].off..] + tail);
      if v > 0xffff then None else Some(UrlRecord(r.value, v))
    else Some(UrlRecord(r.value, 0))
  }

  /** http_parser_parse_url on a record filled with zeroes. */
  method ParseUrl(buf: string, connect: bool, tail: string) returns (r: Option<UrlRecord>)
    ensures r == ParsedUrl(buf, connect, tail)
  {
    hide UrlRun, UrlMarks, HasAt, Narrow, Exact, HostSplit, LeadingNumber;
    FirstStageInBounds(buf, connect);
    var ok, fields, foundAt := Split(buf, connect);
    if !ok {
      return None;
    }
    if SchemaField in fields || HostField in fields {
      ok, fields := ParseHost(buf, fields, foundAt);
      if !ok {
        return None;
      }
    }
    assert Some(fields) == SplitFields(buf, connect);
    if connect && fields.Keys != {HostField, PortField} {
      return None;
    }
    var port := 0;
    if PortField in fields {
      port := ReadNumber(buf[fields[PortField].off..] + tail);
      if port > 0xffff {
        return None;
      }
    }
    return Some(UrlRecord(fields, port));
  }
}

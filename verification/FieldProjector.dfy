/**
 * The streaming projector that reads one field out of a private settings file byte by byte,
 * against a reference that splits the whole file into lines.
 */
module FieldProjector {
  import opened Values

  const MAX_SOURCE := 1048576
  const MAX_LINE := 32768
  const MAX_NAME := 256
  const NEWLINE: Octet := 10
  const EQUALS: Octet := 61
  const BOM: Octets := [239, 187, 191]
  const JEV_KEY: Octets := [106, 101, 118, 45, 107, 101, 121]
  const JEV_PASSPORT: Octets := [106, 101, 118, 45, 112, 97, 115, 115, 112, 111, 114, 116]

  /** The two fields that may be projected. */
  datatype Field = JevKey | JevPassport

  function Name(field: Field): Octets {
    match field
    case JevKey => JEV_KEY
    case JevPassport => JEV_PASSPORT
  }

  function Recognise(name: Octets): (field: Option<Field>)
    ensures field.Some? ==> Name(field.value) == name
  {
    if name == JEV_KEY then Some(JevKey) else if name == JEV_PASSPORT then Some(JevPassport) else None
  }

  /** The longest raw value of a selected line. */
  function RawLimit(field: Field): nat {
    if field.JevKey? then 4100 else 16400
  }

  // ---------------------------------------------------------------- trimming and validation

  predicate IsBlank(b: Octet) {
    b == 32 || b == 9
  }

  function StripLeft(s: Octets): Octets {
    if |s| > 0 && IsBlank(s[0]) then StripLeft(s[1..]) else s
  }

  function StripRight(s: Octets): Octets {
    if |s| > 0 && IsBlank(s[|s| - 1]) then StripRight(s[..|s| - 1]) else s
  }

  function Strip(s: Octets): Octets {
    StripRight(StripLeft(s))
  }

  function WithoutReturn(s: Octets): Octets {
    if |s| > 0 && s[|s| - 1] == 13 then s[..|s| - 1] else s
  }

  function Unquote(v: Octets): Option<Octets> {
    if |v| == 0 then None
    else if v[0] != 39 && v[0] != 34 then Some(v)
    else if |v| < 2 || v[|v| - 1] != v[0] then None
    else Some(v[1..|v| - 1])
  }

  function Ascii(v: Octets): (r: string)
    requires forall i :: 0 <= i < |v| ==> v[i] < 128
  {
    seq(|v|, i requires 0 <= i < |v| => v[i] as char)
  }

  /** Checks and decodes a trimmed value; decoding UTF-8 is a parameter. */
  function Validate(field: Field, v: Octets, utf8: Octets -> Option<string>): Option<string> {
    var inner := Unquote(v);
    if inner.None? then None
    else if field.JevKey? then
      if 1 <= |inner.value| <= 4096 && (forall i :: 0 <= i < |inner.value| ==> 33 <= inner.value[i] <= 126)
      then Some(Ascii(inner.value)) else None
    else
      var phrase := utf8(inner.value);
      if phrase.Some? && 12 <= |phrase.value| <= 4096 then phrase else None
  }

  // ---------------------------------------------------------------- reference

  /** The lines of a file; the last one has no newline after it. */
  function Split(s: Octets): (lines: seq<Octets>)
    ensures |lines| > 0
  {
    if s == [] then [[]]
    else
      var n := |s| - 1;
      var before := Split(s[..n]);
      var m := |before| - 1;
      if s[n] == NEWLINE then before + [[]] else before[..m] + [before[m] + [s[n]]]
  }

  function FirstEquals(l: Octets): (e: nat)
    ensures e <= |l|
  {
    if |l| == 0 || l[0] == EQUALS then 0 else 1 + FirstEquals(l[1..])
  }

  /** The line names the field before its first `=`. */
  predicate Selects(l: Octets, field: Field) {
    var e := FirstEquals(l);
    e < |l| && e <= MAX_NAME && Strip(l[..e]) == Name(field)
  }

  function Raw(l: Octets): Octets {
    var e := FirstEquals(l);
    if e < |l| then l[e + 1..] else []
  }

  function Picks(lines: seq<Octets>, field: Field): seq<Octets> {
    if lines == [] then []
    else
      var n := |lines| - 1;
      Picks(lines[..n], field) + if Selects(lines[n], field) then [lines[n]] else []
  }

  /** A line, with its newline if it has one, is within the limits, and so is its raw value if it is selected. */
  predicate LineFits(l: Octets, newline: nat, field: Field) {
    |l| + newline <= MAX_LINE && (Selects(l, field) ==> |Raw(l)| <= RawLimit(field))
  }

  predicate Fits(lines: seq<Octets>, k: nat, field: Field)
    requires k < |lines|
  {
    LineFits(lines[k], if k < |lines| - 1 then 1 else 0, field)
  }

  predicate AllFit(lines: seq<Octets>, field: Field) {
    forall k :: 0 <= k < |lines| ==> Fits(lines, k, field)
  }

  function FromLines(lines: seq<Octets>, field: Field, utf8: Octets -> Option<string>): Option<string> {
    var picks := Picks(lines, field);
    if !AllFit(lines, field) || |picks| != 1 then None
    else Validate(field, Strip(WithoutReturn(Raw(picks[0]))), utf8)
  }

  function Body(stream: Octets): (b: Octets)
    ensures b == stream || stream == BOM + b
  {
    if |stream| >= 3 && stream[..3] == BOM then
      assert stream == BOM + stream[3..];
      stream[3..]
    else stream
  }

  /** Drop a byte-order mark, split, keep the lines that name the field, require exactly one. */
  function Reference(stream: Octets, name: Octets, utf8: Octets -> Option<string>): Option<string> {
    var field := Recognise(name);
    if field.None? || |stream| > MAX_SOURCE then None else FromLines(Split(Body(stream)), field.value, utf8)
  }

  // ---------------------------------------------------------------- prefixes

  /** No later byte can save a file whose consumed part is already broken. */
  ghost predicate Broken(lines: seq<Octets>, field: Field)
    requires |lines| > 0
  {
    !AllFit(lines, field) || |Picks(lines[..|lines| - 1], field)| > 1
  }

  /** The first `=` is the first one: there is none before it, and one byte more only moves a missing one. */
  lemma {:induction false} FirstEqualsNext(l: Octets, b: Octet)
    ensures FirstEquals(l + [b]) == if FirstEquals(l) < |l| || b == EQUALS then FirstEquals(l) else |l| + 1
  {
    if |l| == 0 {
      assert l + [b] == [b] && [b][1..] == [];
    } else {
      assert (l + [b])[1..] == l[1..] + [b];
      FirstEqualsNext(l[1..], b);
    }
  }

  /** Once a line has its `=`, another byte only lengthens its raw value. */
  lemma {:induction false} GrowValue(l: Octets, b: Octet, field: Field)
    requires FirstEquals(l) < |l|
    ensures FirstEquals(l + [b]) == FirstEquals(l)
    ensures (Selects(l + [b], field) <==> Selects(l, field)) && Raw(l + [b]) == Raw(l) + [b]
  {
    FirstEqualsNext(l, b);
    assert (l + [b])[..FirstEquals(l)] == l[..FirstEquals(l)];
  }

  lemma {:induction false} GrowName(l: Octets, b: Octet, field: Field)
    requires FirstEquals(l) == |l| && b != EQUALS
    ensures FirstEquals(l + [b]) == |l| + 1 && !Selects(l + [b], field) && !Selects(l, field)
  {
    FirstEqualsNext(l, b);
  }

  lemma {:induction false} MeetEquals(l: Octets, field: Field)
    requires FirstEquals(l) == |l|
    ensures FirstEquals(l + [EQUALS]) == |l| && Raw(l + [EQUALS]) == []
    ensures Selects(l + [EQUALS], field) <==> |l| <= MAX_NAME && Strip(l) == Name(field)
  {
    FirstEqualsNext(l, EQUALS);
    assert (l + [EQUALS])[..|l|] == l;
  }

  /** The lines after one more byte. */
  ghost function Next(lines: seq<Octets>, b: Octet): seq<Octets>
    requires |lines| > 0
  {
    var m := |lines| - 1;
    if b == NEWLINE then lines + [[]] else lines[..m] + [lines[m] + [b]]
  }

  lemma BrokenLater(lines: seq<Octets>, b: Octet, field: Field)
    requires |lines| > 0 && Broken(lines, field)
    ensures Broken(Next(lines, b), field)
  {
    var m := |lines| - 1;
    var next := Next(lines, b);
    if !AllFit(lines, field) {
      var k :| 0 <= k < |lines| && !Fits(lines, k, field);
      if k == m && b != NEWLINE {
        if FirstEquals(lines[m]) < |lines[m]| { GrowValue(lines[m], b, field); }
      }
      assert !Fits(next, k, field);
    } else if b == NEWLINE {
      assert next[..|next| - 1] == lines;
    } else {
      assert next[..m] == lines[..m];
    }
  }

  lemma SplitNext(s: Octets, p: nat)
    requires p < |s|
    ensures Split(s[..p + 1]) == Next(Split(s[..p]), s[p])
  {
    assert s[..p + 1][..p] == s[..p];
  }

  lemma {:induction false} BrokenPrefix(s: Octets, p: nat, field: Field)
    requires p <= |s| && Broken(Split(s[..p]), field)
    ensures Broken(Split(s), field)
    decreases |s| - p
  {
    if p == |s| {
      assert s[..p] == s;
    } else {
      SplitNext(s, p);
      BrokenLater(Split(s[..p]), s[p], field);
      BrokenPrefix(s, p + 1, field);
    }
  }

  // ---------------------------------------------------------------- the automaton

  /** What the loop variables say about the line read so far. */
  ghost predicate Reads(
    l: Octets, field: Field, prefix: Octets, selected: Octets, isValue: bool, isSelected: bool, size: nat)
  {
    && size == |l|
    && (isValue <==> FirstEquals(l) < |l| || |l| > MAX_NAME)
    && (isSelected <==> Selects(l, field))
    && prefix == (if isValue then [] else l)
    && selected == (if isSelected then Raw(l) else [])
  }

  /** The value kept is the one selected line finished so far. */
  ghost predicate Keeps(done: seq<Octets>, field: Field, value: Option<Octets>) {
    var picks := Picks(done, field);
    |picks| <= 1 && value == if |picks| == 0 then None else Some(Strip(WithoutReturn(Raw(picks[0]))))
  }

  /** One byte that is not a newline: the new line variables, or a failure when the raw value is too long. */
  method ReadByte(
    field: Field, b: Octet, prefix: Octets, selected: Octets, isValue: bool, isSelected: bool, ghost l: Octets)
    returns (ok: bool, prefix': Octets, selected': Octets, isValue': bool, isSelected': bool)
    requires Reads(l, field, prefix, selected, isValue, isSelected, |l|)
    ensures ok <==> (Selects(l + [b], field) ==> |Raw(l + [b])| <= RawLimit(field))
    ensures Reads(l + [b], field, prefix', selected', isValue', isSelected', |l| + 1)
  {
    ok, prefix', selected', isValue', isSelected' := true, prefix, selected, isValue, isSelected;
    if !isValue {
      if b == EQUALS {
        MeetEquals(l, field);
        isValue', isSelected', prefix' := true, Strip(prefix) == Name(field), [];
      } else {
        GrowName(l, b, field);
        if |prefix| < MAX_NAME {
          prefix' := prefix + [b];
        } else {
          isValue', prefix' := true, [];
        }
      }
    } else {
      if FirstEquals(l) < |l| { GrowValue(l, b, field); }
      else if b == EQUALS { MeetEquals(l, field); }
      else { GrowName(l, b, field); }
      if isSelected {
        selected' := selected + [b];
        ok := |selected'| <= RawLimit(field);
      }
    }
  }

  /** The end of the last of `lines`: a selected line gives the value, and a second one is a failure. */
  method FinishLine(field: Field, isSelected: bool, selected: Octets, value: Option<Octets>, ghost lines: seq<Octets>)
    returns (ok: bool, value': Option<Octets>)
    requires |lines| > 0 && Keeps(lines[..|lines| - 1], field, value)
    requires isSelected <==> Selects(lines[|lines| - 1], field)
    requires selected == if isSelected then Raw(lines[|lines| - 1]) else []
    ensures ok <==> |Picks(lines, field)| <= 1
    ensures ok ==> Keeps(lines, field, value')
  {
    if !isSelected { return true, value; }
    if value.Some? { return false, value; }
    return true, Some(Strip(WithoutReturn(selected)));
  }

  lemma NewlineFits(lines: seq<Octets>, field: Field)
    requires |lines| > 0 && AllFit(lines, field)
    ensures AllFit(lines + [[]], field) <==> |lines[|lines| - 1]| + 1 <= MAX_LINE
  {
    var m, next := |lines| - 1, lines + [[]];
    assert Fits(lines, m, field) && Fits(next, m + 1, field);
    assert Fits(next, m, field) <==> |lines[m]| + 1 <= MAX_LINE;
    forall k | 0 <= k < m ensures Fits(next, k, field) { assert Fits(lines, k, field); }
  }

  lemma ByteFits(lines: seq<Octets>, last: Octets, field: Field)
    requires |lines| > 0 && AllFit(lines, field)
    ensures AllFit(lines[..|lines| - 1] + [last], field) <==> LineFits(last, 0, field)
  {
    var m, next := |lines| - 1, lines[..|lines| - 1] + [last];
    assert Fits(next, m, field) <==> LineFits(last, 0, field);
    forall k | 0 <= k < m ensures Fits(next, k, field) { assert Fits(lines, k, field); }
  }

  /** When the next byte breaks a file that was not broken. */
  lemma NextLines(lines: seq<Octets>, b: Octet, field: Field)
    requires |lines| > 0 && !Broken(lines, field)
    ensures var m := |lines| - 1;
            Broken(Next(lines, b), field) <==>
              if b == NEWLINE then |lines[m]| + 1 > MAX_LINE || |Picks(lines, field)| > 1
              else !LineFits(lines[m] + [b], 0, field)
  {
    var m, next := |lines| - 1, Next(lines, b);
    if b == NEWLINE {
      NewlineFits(lines, field);
      assert next[..m + 1] == lines;
    } else {
      ByteFits(lines, lines[m] + [b], field);
      assert next[..m] == lines[..m];
    }
  }

  /** The loop variables after the lines read so far, none of them broken. */
  datatype Reader = Reader(
    prefix: Octets, selected: Octets, isValue: bool, isSelected: bool, lineSize: nat, value: Option<Octets>)

  ghost predicate Follows(rd: Reader, lines: seq<Octets>, field: Field) {
    && |lines| > 0 && !Broken(lines, field)
    && Reads(lines[|lines| - 1], field, rd.prefix, rd.selected, rd.isValue, rd.isSelected, rd.lineSize)
    && Keeps(lines[..|lines| - 1], field, rd.value)
  }

  method ConsumeNewline(field: Field, rd: Reader, ghost lines: seq<Octets>) returns (ok: bool, rd': Reader)
    requires Follows(rd, lines, field) && rd.lineSize + 1 <= MAX_LINE
    ensures ok <==> !Broken(Next(lines, NEWLINE), field)
    ensures ok ==> Follows(rd', Next(lines, NEWLINE), field)
  {
    NextLines(lines, NEWLINE, field);
    var value;
    ok, value := FinishLine(field, rd.isSelected, rd.selected, rd.value, lines);
    rd' := Reader([], [], false, false, 0, value);
    assert Next(lines, NEWLINE)[..|lines|] == lines;
  }

  method ConsumeByte(field: Field, b: Octet, rd: Reader, ghost lines: seq<Octets>) returns (ok: bool, rd': Reader)
    requires Follows(rd, lines, field)
    ensures ok <==> !Broken(Next(lines, b), field)
    ensures ok ==> Follows(rd', Next(lines, b), field)
  {
    ghost var m := |lines| - 1;
    NextLines(lines, b, field);
    if rd.lineSize + 1 > MAX_LINE { return false, rd; }
    if b == NEWLINE {
      ok, rd' := ConsumeNewline(field, rd, lines);
    } else {
      var prefix, selected, isValue, isSelected;
      ok, prefix, selected, isValue, isSelected :=
        ReadByte(field, b, rd.prefix, rd.selected, rd.isValue, rd.isSelected, lines[m]);
      assert Next(lines, b)[..m] == lines[..m];
      rd' := Reader(prefix, selected, isValue, isSelected, rd.lineSize + 1, rd.value);
    }
  }

  /** The end of the file: the one selected line, trimmed and checked. */
  method FinishFile(field: Field, rd: Reader, utf8: Octets -> Option<string>, ghost lines: seq<Octets>)
    returns (r: Option<string>)
    requires Follows(rd, lines, field)
    ensures r == FromLines(lines, field, utf8)
  {
    var ok, value := FinishLine(field, rd.isSelected, rd.selected, rd.value, lines);
    if !ok || value.None? { return None; }
    return Validate(field, value.value, utf8);
  }

  method NextByte(stream: Octets, initial: Octets, total: nat, ghost rest: Octets)
    returns (b: Octet, initial': Octets, total': nat)
    requires total <= |stream| && initial + stream[total..] == rest && |rest| > 0
    ensures b == rest[0] && total' <= |stream| && initial' + stream[total'..] == rest[1..]
    ensures total' == total || total' == total + 1
  {
    if |initial| > 0 {
      return initial[0], initial[1..], total;
    }
    assert rest == stream[total..];
    return stream[total], initial, total + 1;
  }

  datatype Progress = Going(rd: Reader, initial: Octets, total: nat) | Stopped

  /** One byte read and consumed; a stop means that no file that begins so has a value. */
  method ReadOne(field: Field, stream: Octets, rd: Reader, initial: Octets, total: nat, ghost body: Octets, ghost p: nat)
    returns (r: Progress)
    requires p < |body| && total <= |stream| && initial + stream[total..] == body[p..]
    requires Follows(rd, Split(body[..p]), field)
    ensures r.Going? ==>
              && r.total <= |stream| && r.total <= MAX_SOURCE && r.initial + stream[r.total..] == body[p + 1..]
              && Follows(r.rd, Split(body[..p + 1]), field)
    ensures r.Stopped? ==> |stream| > MAX_SOURCE || Broken(Split(body[..p + 1]), field)
  {
    var b, initial', total' := NextByte(stream, initial, total, body[p..]);
    assert body[p..][1..] == body[p + 1..];
    if total' > MAX_SOURCE { return Stopped; }
    SplitNext(body, p);
    var ok, rd' := ConsumeByte(field, b, rd, Split(body[..p]));
    return if ok then Going(rd', initial', total') else Stopped;
  }

  /** Reads the rest of the file byte by byte. */
  method ReadAll(field: Field, stream: Octets, initial: Octets, total: nat, ghost body: Octets)
    returns (r: Progress)
    requires total <= |stream| && total <= MAX_SOURCE && initial + stream[total..] == body
    ensures r.Going? ==> |stream| <= MAX_SOURCE && Follows(r.rd, Split(body), field)
    ensures r.Stopped? ==> |stream| > MAX_SOURCE || Broken(Split(body), field)
  {
    r := Going(Reader([], [], false, false, 0, None), initial, total);
    ghost var p: nat := 0;
    StartOfFile(body, field);
    assert body[0..] == body;
    while |r.initial| > 0 || r.total < |stream|
      invariant r.Going? && p <= |body| && r.total <= |stream| && r.initial + stream[r.total..] == body[p..]
      invariant r.total <= MAX_SOURCE
      invariant Follows(r.rd, Split(body[..p]), field)
      decreases |body| - p
    {
      r := ReadOne(field, stream, r.rd, r.initial, r.total, body, p);
      p := p + 1;
      if r.Stopped? {
        if Broken(Split(body[..p]), field) { BrokenPrefix(body, p, field); }
        return;
      }
    }
    assert body[..p] == body;
  }

  /** A stopped file has no value, and one read to its end has the value of its lines. */
  method ProjectBody(field: Field, stream: Octets, initial: Octets, total: nat, utf8: Octets -> Option<string>, ghost body: Octets)
    returns (r: Option<string>)
    requires total <= |stream| && total <= MAX_SOURCE && initial + stream[total..] == body
    ensures r == if |stream| > MAX_SOURCE then None else FromLines(Split(body), field, utf8)
  {
    var progress := ReadAll(field, stream, initial, total, body);
    if progress.Stopped? { return None; }
    r := FinishFile(field, progress.rd, utf8, Split(body));
  }

  /** The file is read three bytes at first and then one at a time, and never again. */
  method ProjectField(stream: Octets, name: Octets, utf8: Octets -> Option<string>) returns (r: Option<string>)
    ensures r == Reference(stream, name, utf8)
  {
    var known := Recognise(name);
    if known.None? { return None; }
    var start := if |stream| < 3 then stream else stream[..3];
    var initial := if start == BOM then [] else start;
    assert initial + stream[|start|..] == Body(stream);
    r := ProjectBody(known.value, stream, initial, |start|, utf8, Body(stream));
  }

  lemma StartOfFile(body: Octets, field: Field)
    ensures Follows(Reader([], [], false, false, 0, None), Split(body[..0]), field)
  {
    assert body[..0] == [];
  }

  // ---------------------------------------------------------------- files built from lines

  function Join(lines: seq<Octets>): Octets
    requires |lines| > 0
  {
    var n := |lines| - 1;
    if n == 0 then lines[0] else Join(lines[..n]) + [NEWLINE] + lines[n]
  }

  lemma {:induction false} JoinNext(before: seq<Octets>, b: Octet)
    requires |before| > 0
    ensures Join(Next(before, b)) == Join(before) + [b]
  {
    var m := |before| - 1;
    if b == NEWLINE {
      assert (before + [[]])[..m + 1] == before;
    } else {
      assert (before[..m] + [before[m] + [b]])[..m] == before[..m];
    }
  }

  /** Splitting loses nothing. */
  lemma {:induction false} JoinSplit(s: Octets)
    ensures Join(Split(s)) == s
  {
    if s != [] {
      var n := |s| - 1;
      JoinSplit(s[..n]);
      var before := Split(s[..n]);
      JoinNext(before, s[n]);
      assert Split(s) == Next(before, s[n]);
      assert s == s[..n] + [s[n]];
    }
  }

  /** The lines with their last one lengthened. */
  ghost function Grown(before: seq<Octets>, l: Octets): seq<Octets>
    requires |before| > 0
  {
    var m := |before| - 1;
    before[..m] + [before[m] + l]
  }

  lemma SplitSnoc(s: Octets, b: Octet)
    ensures Split(s + [b]) == Next(Split(s), b)
  {
    assert (s + [b])[..|s|] == s;
  }

  lemma GrownNext(before: seq<Octets>, l: Octets, b: Octet)
    requires |before| > 0 && b != NEWLINE
    ensures Next(Grown(before, l), b) == Grown(before, l + [b])
  {
    var m := |before| - 1;
    assert Grown(before, l)[..m] == before[..m];
    assert before[m] + l + [b] == before[m] + (l + [b]);
  }

  lemma GrownByNothing(before: seq<Octets>)
    requires |before| > 0
    ensures Grown(before, []) == before
  {
    assert before[|before| - 1] + [] == before[|before| - 1];
  }

  lemma SplitStep(t: Octets, before: seq<Octets>, l: Octets, b: Octet)
    requires |before| > 0 && b != NEWLINE && Split(t) == Grown(before, l)
    ensures Split(t + [b]) == Grown(before, l + [b])
  {
    SplitSnoc(t, b);
    GrownNext(before, l, b);
  }

  /** Lengthening a text by part of a line lengthens its last line. */
  lemma {:induction false} SplitAppendTo(s: Octets, l: Octets, k: nat)
    requires k <= |l| && NEWLINE !in l
    ensures Split(s + l[..k]) == Grown(Split(s), l[..k])
    decreases k
  {
    if k == 0 {
      assert l[..0] == [] && s + [] == s;
      GrownByNothing(Split(s));
    } else {
      SplitAppendTo(s, l, k - 1);
      SplitStep(s + l[..k - 1], Split(s), l[..k - 1], l[k - 1]);
      PrefixSnoc(s, l, k);
    }
  }

  lemma PrefixSnoc(s: Octets, l: Octets, k: nat)
    requires 0 < k <= |l|
    ensures l[..k] == l[..k - 1] + [l[k - 1]] && s + l[..k] == (s + l[..k - 1]) + [l[k - 1]]
  {
  }

  lemma {:induction false} SplitAppend(s: Octets, l: Octets)
    requires NEWLINE !in l
    ensures Split(s + l) == Grown(Split(s), l)
  {
    SplitAppendTo(s, l, |l|);
    assert l[..|l|] == l;
  }

  /** Filling the empty last line. */
  lemma FillLast(front: seq<Octets>, l: Octets)
    ensures Grown(front + [[]], l) == front + [l]
  {
    assert (front + [[]])[..|front|] == front && [] + l == l;
  }

  lemma {:induction false} SplitOne(l: Octets)
    requires NEWLINE !in l
    ensures Split(l) == [l]
  {
    SplitAppend([], l);
    FillLast([], l);
    assert [] + l == l && Split([]) == [] + [[]];
  }

  lemma SplitMore(s: Octets, l: Octets)
    requires NEWLINE !in l
    ensures Split(s + [NEWLINE] + l) == Split(s) + [l]
  {
    SplitSnoc(s, NEWLINE);
    SplitAppend(s + [NEWLINE], l);
    FillLast(Split(s), l);
  }

  lemma {:induction false} SplitJoin(lines: seq<Octets>)
    requires |lines| > 0 && forall k :: 0 <= k < |lines| ==> NEWLINE !in lines[k]
    ensures Split(Join(lines)) == lines
    decreases |lines|
  {
    var n := |lines| - 1;
    if n == 0 {
      SplitOne(lines[0]);
    } else {
      SplitJoin(lines[..n]);
      SplitMore(Join(lines[..n]), lines[n]);
      assert lines == lines[..n] + [lines[n]];
    }
  }

  lemma {:induction false} PicksIgnore(lines: seq<Octets>, k: nat, l: Octets, field: Field)
    requires k < |lines| && !Selects(lines[k], field) && !Selects(l, field)
    ensures Picks(lines[k := l], field) == Picks(lines, field)
    decreases |lines|
  {
    var n := |lines| - 1;
    if k < n {
      PicksIgnore(lines[..n], k, l, field);
      assert lines[k := l][..n] == lines[..n][k := l];
    } else {
      assert lines[k := l][..n] == lines[..n];
    }
  }

  lemma IgnoreLine(lines: seq<Octets>, k: nat, l: Octets, field: Field, utf8: Octets -> Option<string>)
    requires k < |lines| && !Selects(lines[k], field) && !Selects(l, field)
    requires Fits(lines, k, field) && Fits(lines[k := l], k, field)
    ensures FromLines(lines[k := l], field, utf8) == FromLines(lines, field, utf8)
  {
    var other := lines[k := l];
    PicksIgnore(lines, k, l, field);
    assert forall i :: 0 <= i < |lines| && i != k ==> (Fits(lines, i, field) <==> Fits(other, i, field));
  }

  // ---------------------------------------------------------------- whole files

  predicate IsFile(lines: seq<Octets>) {
    |lines| > 0 && forall k :: 0 <= k < |lines| ==> NEWLINE !in lines[k]
  }

  /** A file made of these lines, with or without a byte-order mark before them. */
  function File(marked: bool, lines: seq<Octets>): Octets
    requires |lines| > 0
  {
    (if marked then BOM else []) + Join(lines)
  }

  /** The lines as they are read: without a mark of its own, a file gives up one that its first line begins with. */
  function Seen(marked: bool, lines: seq<Octets>): seq<Octets>
    requires |lines| > 0
  {
    if marked then lines else lines[0 := Body(lines[0])]
  }

  lemma {:induction false} JoinFront(lines: seq<Octets>)
    requires |lines| > 1
    ensures Join(lines) == lines[0] + [NEWLINE] + Join(lines[1..])
    decreases |lines|
  {
    var n := |lines| - 1;
    if n == 1 {
      assert lines[..1] == [lines[0]] && lines[1..] == [lines[1]];
    } else {
      JoinFront(lines[..n]);
      assert lines[..n][1..] == lines[1..][..n - 1];
      assert Join(lines[1..]) == Join(lines[1..][..n - 1]) + [NEWLINE] + lines[n];
    }
  }

  /** A mark lies within the first line. */
  lemma BodyOfFront(l: Octets, rest: Octets)
    ensures Body(l + [NEWLINE] + rest) == Body(l) + [NEWLINE] + rest
  {
    var s := l + [NEWLINE] + rest;
    if |l| >= 3 {
      assert s[..3] == l[..3] && s[3..] == l[3..] + [NEWLINE] + rest;
    } else {
      assert |s| >= 3 ==> s[..3][|l|] == NEWLINE;
    }
  }

  lemma BodyOfJoin(lines: seq<Octets>)
    requires |lines| > 0
    ensures Body(Join(lines)) == Join(lines[0 := Body(lines[0])])
  {
    if |lines| > 1 {
      var seen := lines[0 := Body(lines[0])];
      JoinFront(lines);
      JoinFront(seen);
      assert seen[1..] == lines[1..];
      BodyOfFront(lines[0], Join(lines[1..]));
    }
  }

  lemma BodyHasNoNewline(l: Octets)
    requires NEWLINE !in l
    ensures NEWLINE !in Body(l)
  {
    assert forall i :: 0 <= i < |Body(l)| ==> Body(l)[i] in l;
  }

  /** What a whole file means is what its lines mean as they are read. */
  lemma {:induction false} FileOfLines(marked: bool, lines: seq<Octets>, name: Octets, utf8: Octets -> Option<string>)
    requires IsFile(lines) && Recognise(name).Some?
    ensures Reference(File(marked, lines), name, utf8) ==
              if |File(marked, lines)| > MAX_SOURCE then None
              else FromLines(Seen(marked, lines), Recognise(name).value, utf8)
  {
    if marked {
      var stream := BOM + Join(lines);
      assert stream[..3] == BOM && stream[3..] == Join(lines);
      SplitJoin(lines);
    } else {
      assert [] + Join(lines) == Join(lines);
      BodyOfJoin(lines);
      BodyHasNoNewline(lines[0]);
      SplitJoin(lines[0 := Body(lines[0])]);
    }
  }

  /** Every file is one made of lines. */
  lemma {:induction false} EveryFileHasLines(stream: Octets)
    ensures IsFile(Split(stream)) && File(false, Split(stream)) == stream
  {
    JoinSplit(stream);
    SplitIsFile(stream);
    assert [] + stream == stream;
  }

  lemma {:induction false} SplitIsFile(s: Octets)
    ensures IsFile(Split(s))
  {
    if s != [] { SplitIsFile(s[..|s| - 1]); }
  }

  /**
   * In a whole file, a line that does not name the field may become any other such line within the
   * limits, both taken as they are read.
   */
  lemma UnselectedLinesAreIrrelevant(
    marked: bool, lines: seq<Octets>, k: nat, l: Octets, name: Octets, utf8: Octets -> Option<string>)
    requires IsFile(lines) && k < |lines| && NEWLINE !in l && Recognise(name).Some?
    requires var field, before, after := Recognise(name).value, Seen(marked, lines), Seen(marked, lines[k := l]);
             !Selects(before[k], field) && !Selects(after[k], field) && Fits(before, k, field) && Fits(after, k, field)
    requires |File(marked, lines)| <= MAX_SOURCE && |File(marked, lines[k := l])| <= MAX_SOURCE
    ensures Reference(File(marked, lines[k := l]), name, utf8) == Reference(File(marked, lines), name, utf8)
  {
    FileOfLines(marked, lines, name, utf8);
    FileOfLines(marked, lines[k := l], name, utf8);
    SeenInPlace(marked, lines, k, l);
    IgnoreLine(Seen(marked, lines), k, Seen(marked, lines[k := l])[k], Recognise(name).value, utf8);
  }

  lemma SeenInPlace(marked: bool, lines: seq<Octets>, k: nat, l: Octets)
    requires k < |lines|
    ensures Seen(marked, lines[k := l]) == Seen(marked, lines)[k := Seen(marked, lines[k := l])[k]]
  {
  }

  predicate BeginsWithMark(l: Octets) {
    |l| >= 3 && l[..3] == BOM
  }

  /** The lines may be taken as written when the line is not the first, or no mark is at stake. */
  lemma UnselectedAsWritten(
    marked: bool, lines: seq<Octets>, k: nat, l: Octets, name: Octets, utf8: Octets -> Option<string>)
    requires IsFile(lines) && k < |lines| && NEWLINE !in l && Recognise(name).Some?
    requires var field := Recognise(name).value;
             !Selects(lines[k], field) && !Selects(l, field) && Fits(lines, k, field) && Fits(lines[k := l], k, field)
    requires k > 0 || marked || (!BeginsWithMark(lines[0]) && !BeginsWithMark(l))
    requires |File(marked, lines)| <= MAX_SOURCE && |File(marked, lines[k := l])| <= MAX_SOURCE
    ensures Reference(File(marked, lines[k := l]), name, utf8) == Reference(File(marked, lines), name, utf8)
  {
    var before, after := Seen(marked, lines), Seen(marked, lines[k := l]);
    assert before[k] == lines[k] && after[k] == l;
    UnselectedLinesAreIrrelevant(marked, lines, k, l, name, utf8);
  }

  // ---------------------------------------------------------------- the condition is needed

  function KeyLine(v: Octet): Octets {
    JEV_KEY + [EQUALS, v]
  }

  lemma {:induction false} FirstEqualsAfter(name: Octets, rest: Octets)
    requires EQUALS !in name
    ensures FirstEquals(name + [EQUALS] + rest) == |name|
    decreases |name|
  {
    var l := name + [EQUALS] + rest;
    if |name| > 0 {
      assert l[0] == name[0] && l[1..] == name[1..] + [EQUALS] + rest;
      FirstEqualsAfter(name[1..], rest);
    }
  }

  lemma KeyLineSelects(v: Octet)
    requires v != NEWLINE
    ensures var l := KeyLine(v); Selects(l, JevKey) && Raw(l) == [v] && Body(l) == l && NEWLINE !in l && |l| == 9
  {
    var l := KeyLine(v);
    assert l == JEV_KEY + [EQUALS] + [v];
    FirstEqualsAfter(JEV_KEY, [v]);
    assert l[..7] == JEV_KEY && l[8..] == [v] && Strip(JEV_KEY) == JEV_KEY;
    assert l[..3][0] == 106;
  }

  lemma MarkedKeyLine(v: Octet)
    requires v != NEWLINE
    ensures var l := BOM + KeyLine(v); !Selects(l, JevKey) && Body(l) == KeyLine(v) && NEWLINE !in l && |l| == 12
  {
    var l := BOM + KeyLine(v);
    assert l == (BOM + JEV_KEY) + [EQUALS] + [v];
    FirstEqualsAfter(BOM + JEV_KEY, [v]);
    assert l[..10] == BOM + JEV_KEY && Strip(BOM + JEV_KEY) == BOM + JEV_KEY && (BOM + JEV_KEY)[0] == 239;
    assert l[..3] == BOM && l[3..] == KeyLine(v);
  }

  lemma PicksOfTwo(a: Octets, b: Octets)
    requires Selects(b, JevKey)
    ensures Picks([a, b], JevKey) == (if Selects(a, JevKey) then [a] else []) + [b]
  {
    assert [a, b][..1] == [a] && [a][..0] == [];
    assert Picks([a], JevKey) == Picks([], JevKey) + if Selects(a, JevKey) then [a] else [];
  }

  /** A short file of two lines, the second of which is selected. */
  lemma FromTwo(a: Octets, b: Octets, utf8: Octets -> Option<string>)
    requires |a| <= 100 && |b| <= 100 && Selects(b, JevKey)
    ensures FromLines([a, b], JevKey, utf8) ==
              if Selects(a, JevKey) then None else Validate(JevKey, Strip(WithoutReturn(Raw(b))), utf8)
  {
    assert Fits([a, b], 0, JevKey) && Fits([a, b], 1, JevKey);
    PicksOfTwo(a, b);
  }

  lemma {:induction false} FileOfTwo(a: Octets, b: Octets, utf8: Octets -> Option<string>)
    requires |a| <= 100 && |b| <= 100 && NEWLINE !in a && NEWLINE !in b
    ensures Reference(File(false, [a, b]), JEV_KEY, utf8) == FromLines([Body(a), b], JevKey, utf8)
  {
    var lines := [a, b];
    assert lines[..1] == [a] && |Join(lines)| <= 201;
    FileOfLines(false, lines, JEV_KEY, utf8);
    assert Seen(false, lines) == [Body(a), b];
  }

  lemma ValueOfA(utf8: Octets -> Option<string>)
    ensures Validate(JevKey, Strip(WithoutReturn([97])), utf8) == Some("a")
  {
    assert Strip([97]) == [97];
    assert Ascii([97]) == "a";
  }

  /**
   * A first line that begins with the mark is read without it: neither the line `x` nor the marked line
   * names the field as written, and yet the one file has a value and the other has none.
   */
  lemma {:induction false} MarkedFirstLineMatters(utf8: Octets -> Option<string>)
    ensures var x, y, z: Octets := [120], BOM + KeyLine(98), KeyLine(97);
            && !Selects(x, JevKey) && !Selects(y, JevKey) && LineFits(x, 1, JevKey) && LineFits(y, 1, JevKey)
            && Reference(File(false, [x, z]), JEV_KEY, utf8) == Some("a")
            && Reference(File(false, [y, z]), JEV_KEY, utf8) == None
  {
    var x, y, z: Octets := [120], BOM + KeyLine(98), KeyLine(97);
    KeyLineSelects(97);
    KeyLineSelects(98);
    MarkedKeyLine(98);
    assert FirstEquals(x) == 1;
    FileOfTwo(x, z, utf8);
    FileOfTwo(y, z, utf8);
    FromTwo(x, z, utf8);
    FromTwo(KeyLine(98), z, utf8);
    ValueOfA(utf8);
  }
}

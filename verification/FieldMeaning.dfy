/**
 * What the field projector returns, said of the bytes of the file: which line is taken, and what
 * its value is once blanks, a carriage return and quotes are off (_project_field in
 * scripts/run_browser_synthetic_jev_launcher.py).
 */
module FieldMeaning {
  import opened Values
  import opened FieldProjector

  function Codes(s: string): Octets
    requires forall i :: 0 <= i < |s| ==> s[i] < 128 as char
  {
    seq(|s|, i requires 0 <= i < |s| => s[i] as int as Octet)
  }

  // ---------------------------------------------------------------- trimming

  /** Everything around s[lo..hi] is a space or a tab, and its ends are not. */
  ghost predicate Span(s: Octets, lo: nat, hi: nat) {
    && lo <= hi <= |s| && (forall i :: 0 <= i < |s| && !(lo <= i < hi) ==> s[i] in {32, 9})
    && (lo < hi ==> s[lo] !in {32, 9} && s[hi - 1] !in {32, 9})
  }

  /** `v` is `s` without the spaces and tabs around it. */
  ghost predicate Trims(s: Octets, v: Octets) {
    exists lo: nat, hi: nat :: Span(s, lo, hi) && v == s[lo..hi]
  }

  lemma {:induction false} LeftOff(s: Octets) returns (k: nat)
    ensures k <= |s| && StripLeft(s) == s[k..] && (k < |s| ==> s[k] !in {32, 9})
    ensures forall i :: 0 <= i < k ==> s[i] in {32, 9}
    decreases |s|
  {
    k := 0;
    if |s| > 0 && IsBlank(s[0]) {
      var t := s[1..];
      k := LeftOff(t);
      assert t[k..] == s[k + 1..];
      forall i | 0 <= i < k + 1 ensures s[i] in {32, 9} { assert i > 0 ==> s[i] == t[i - 1]; }
      k := k + 1;
    }
  }

  lemma {:induction false} RightOff(s: Octets) returns (k: nat)
    ensures k <= |s| && StripRight(s) == s[..k] && (k > 0 ==> s[k - 1] !in {32, 9})
    ensures forall i :: k <= i < |s| ==> s[i] in {32, 9}
    decreases |s|
  {
    k := |s|;
    if |s| > 0 && IsBlank(s[|s| - 1]) {
      var t := s[..|s| - 1];
      k := RightOff(t);
      assert t[..k] == s[..k];
      forall i | k <= i < |s| ensures s[i] in {32, 9} { assert i < |t| ==> s[i] == t[i]; }
    }
  }

  lemma {:induction false} StripTrims(s: Octets)
    ensures Trims(s, Strip(s))
  {
    var lo := LeftOff(s);
    var t := s[lo..];
    var n := RightOff(t);
    assert t[..n] == s[lo..lo + n];
    forall i | lo + n <= i < |s| ensures s[i] in {32, 9} { assert s[i] == t[i - lo]; }
    if n > 0 { assert s[lo + n - 1] == t[n - 1]; }
    var hi := lo + n;
    assert Span(s, lo, hi);
  }

  lemma SpanIsUnique(s: Octets, lo: nat, hi: nat, lo': nat, hi': nat)
    requires Span(s, lo, hi) && Span(s, lo', hi')
    ensures s[lo..hi] == s[lo'..hi']
  {
    assert lo < hi || lo' < hi' ==> lo == lo' && hi == hi';
  }

  lemma {:induction false} StripIff(s: Octets, v: Octets)
    ensures Strip(s) == v <==> Trims(s, v)
  {
    StripTrims(s);
    if Trims(s, v) {
      var lo: nat, hi: nat :| Span(s, lo, hi) && v == s[lo..hi];
      var lo': nat, hi': nat :| Span(s, lo', hi') && Strip(s) == s[lo'..hi'];
      SpanIsUnique(s, lo, hi, lo', hi');
    }
  }

  // ---------------------------------------------------------------- the value of a line

  /** A raw value without one carriage return at its end. */
  predicate Returned(raw: Octets, core: Octets) {
    raw == core + [13] || (raw == core && (raw == [] || raw[|raw| - 1] != 13))
  }

  /** A trimmed value without the quotes around it; a quote that is not closed has no value. */
  predicate Unwraps(v: Octets, inner: Octets) {
    v != [] && if v[0] in {39, 34} then v == [v[0]] + inner + [v[0]] else v == inner
  }

  ghost predicate ValueBy(raw: Octets, core: Octets, v: Octets, inner: Octets) {
    Returned(raw, core) && Trims(core, v) && Unwraps(v, inner)
  }

  /** The bytes a raw value stands for. */
  ghost predicate StandsFor(raw: Octets, inner: Octets) {
    exists core, v :: ValueBy(raw, core, v, inner)
  }

  lemma {:induction false} UnquoteIff(v: Octets, inner: Octets)
    ensures Unquote(v) == Some(inner) <==> Unwraps(v, inner)
  {
    if |v| >= 2 { assert v == [v[0]] + v[1..|v| - 1] + [v[|v| - 1]]; }
  }

  lemma {:induction false} ReturnedIff(raw: Octets, core: Octets)
    ensures WithoutReturn(raw) == core <==> Returned(raw, core)
  {
    if |raw| > 0 { assert raw == raw[..|raw| - 1] + [raw[|raw| - 1]]; }
  }

  lemma {:induction false} StandsForIff(raw: Octets, inner: Octets)
    ensures Unquote(Strip(WithoutReturn(raw))) == Some(inner) <==> StandsFor(raw, inner)
  {
    var core := WithoutReturn(raw);
    ReturnedIff(raw, core);
    StripIff(core, Strip(core));
    UnquoteIff(Strip(core), inner);
    if StandsFor(raw, inner) {
      var core', v :| ValueBy(raw, core', v, inner);
      ReturnedIff(raw, core');
      StripIff(core', v);
    } else if Unwraps(Strip(core), inner) {
      assert ValueBy(raw, core, Strip(core), inner);
    }
  }

  /** The text of a value: printable ASCII for a key, and UTF-8 of a certain length for a passport. */
  predicate Spells(field: Field, inner: Octets, utf8: Octets -> Option<string>, text: string) {
    if field.JevKey? then
      && 1 <= |inner| <= 4096 && |text| == |inner|
      && forall i :: 0 <= i < |inner| ==> 33 <= inner[i] <= 126 && text[i] as int == inner[i] as int
    else utf8(inner) == Some(text) && 12 <= |text| <= 4096
  }

  lemma {:induction false} NamesAre()
    ensures JEV_KEY == Codes("jev-key") && JEV_PASSPORT == Codes("jev-passport")
  {
  }

  lemma {:induction false} ValidateIff(field: Field, v: Octets, utf8: Octets -> Option<string>, text: string)
    ensures Validate(field, v, utf8) == Some(text) <==> exists inner :: Unwraps(v, inner) && Spells(field, inner, utf8, text)
  {
    forall inner ensures Unquote(v) == Some(inner) <==> Unwraps(v, inner) { UnquoteIff(v, inner); }
    if Unquote(v).Some? && field.JevKey? {
      var inner := Unquote(v).value;
      if Spells(field, inner, utf8, text) { assert Ascii(inner) == text; }
    }
  }

  // ---------------------------------------------------------------- the line of a field

  /** The first `=` of the line is at `e`, and the name before it, without blanks, is the field's. */
  ghost predicate NamedAt(l: Octets, e: nat, name: Octets) {
    e < |l| && e <= 256 && l[e] == 61 && (forall k :: 0 <= k < e ==> l[k] != 61) && Trims(l[..e], name)
  }

  ghost predicate Named(l: Octets, name: Octets) {
    exists e: nat :: NamedAt(l, e, name)
  }

  lemma {:induction false} FirstEqualsIs(l: Octets)
    ensures var e := FirstEquals(l); (e < |l| ==> l[e] == 61) && forall k :: 0 <= k < e ==> l[k] != 61
    decreases |l|
  {
    if |l| > 0 && l[0] != 61 {
      FirstEqualsIs(l[1..]);
      forall k | 0 <= k < FirstEquals(l) ensures l[k] != 61 { assert k > 0 ==> l[k] == l[1..][k - 1]; }
    }
  }

  lemma {:induction false} SelectsIff(l: Octets, field: Field)
    ensures Selects(l, field) <==> Named(l, Name(field))
    ensures forall e: nat :: NamedAt(l, e, Name(field)) ==> Raw(l) == l[e + 1..]
  {
    var e := FirstEquals(l);
    FirstEqualsIs(l);
    StripIff(l[..e], Name(field));
    if Selects(l, field) { assert NamedAt(l, e, Name(field)); }
    forall e': nat | NamedAt(l, e', Name(field)) ensures e' == e { }
  }

  // ---------------------------------------------------------------- the file

  /** The file without a byte-order mark at its start. */
  predicate Unmarked(stream: Octets, body: Octets) {
    stream == [239, 187, 191] + body || (stream == body && !([239, 187, 191] <= stream))
  }

  lemma {:induction false} UnmarkedIff(stream: Octets, body: Octets)
    ensures Body(stream) == body <==> Unmarked(stream, body)
  {
    if [239, 187, 191] <= stream {
      assert stream == [239, 187, 191] + stream[3..];
    }
    if stream == [239, 187, 191] + body { assert stream[..3] == [239, 187, 191] && stream[3..] == body; }
  }

  ghost predicate OnlyNamed(lines: seq<Octets>, name: Octets, k: nat) {
    k < |lines| && Named(lines[k], name) && forall j :: 0 <= j < |lines| && j != k ==> !Named(lines[j], name)
  }

  /** Every line, with its newline, is within 32 KiB. */
  predicate Short(lines: seq<Octets>) {
    forall k :: 0 <= k < |lines| ==> |lines[k]| + (if k < |lines| - 1 then 1 else 0) <= 32768
  }

  ghost predicate OnlySelected(lines: seq<Octets>, field: Field, k: nat) {
    k < |lines| && Selects(lines[k], field) && forall j :: 0 <= j < |lines| && j != k ==> !Selects(lines[j], field)
  }

  ghost predicate NoneSelected(lines: seq<Octets>, field: Field) {
    forall j :: 0 <= j < |lines| ==> !Selects(lines[j], field)
  }

  lemma {:induction false} NoPickIff(lines: seq<Octets>, field: Field)
    ensures Picks(lines, field) == [] <==> NoneSelected(lines, field)
    decreases |lines|
  {
    if lines != [] {
      var n := |lines| - 1;
      var front := lines[..n];
      NoPickIff(front, field);
      assert forall j :: 0 <= j < n ==> front[j] == lines[j];
      assert NoneSelected(lines, field) <==> NoneSelected(front, field) && !Selects(lines[n], field);
    }
  }

  lemma {:induction false} OnlyInFront(lines: seq<Octets>, field: Field, k: nat)
    requires k < |lines| - 1
    ensures OnlySelected(lines, field, k) <==>
              OnlySelected(lines[..|lines| - 1], field, k) && !Selects(lines[|lines| - 1], field)
  {
    var n := |lines| - 1;
    var front := lines[..n];
    assert forall j :: 0 <= j < n ==> front[j] == lines[j];
    if OnlySelected(front, field, k) && !Selects(lines[n], field) {
      forall j | 0 <= j < |lines| && j != k ensures !Selects(lines[j], field) {
        assert j < n ==> !Selects(front[j], field);
      }
    }
  }

  lemma {:induction false} OnlyLast(lines: seq<Octets>, field: Field)
    requires lines != []
    ensures OnlySelected(lines, field, |lines| - 1) <==>
              NoneSelected(lines[..|lines| - 1], field) && Selects(lines[|lines| - 1], field)
  {
    var n := |lines| - 1;
    var front := lines[..n];
    assert forall j :: 0 <= j < n ==> front[j] == lines[j];
    if NoneSelected(front, field) {
      forall j | 0 <= j < n ensures !Selects(lines[j], field) { assert !Selects(front[j], field); }
    }
  }

  lemma {:induction false} OnlyIsPicked(lines: seq<Octets>, field: Field, k: nat)
    requires OnlySelected(lines, field, k)
    ensures Picks(lines, field) == [lines[k]]
    decreases |lines|
  {
    var n := |lines| - 1;
    if k == n {
      OnlyLast(lines, field);
      NoPickIff(lines[..n], field);
    } else {
      OnlyInFront(lines, field, k);
      OnlyIsPicked(lines[..n], field, k);
    }
  }

  lemma {:induction false} PickedIsOnly(lines: seq<Octets>, field: Field) returns (k: nat)
    requires |Picks(lines, field)| == 1
    ensures OnlySelected(lines, field, k)
    decreases |lines|
  {
    var n := |lines| - 1;
    if Selects(lines[n], field) {
      NoPickIff(lines[..n], field);
      OnlyLast(lines, field);
      k := n;
    } else {
      k := PickedIsOnly(lines[..n], field);
      OnlyInFront(lines, field, k);
    }
  }

  // ---------------------------------------------------------------- the whole file

  lemma {:induction false} OnlyNamedIff(lines: seq<Octets>, field: Field, k: nat)
    ensures OnlySelected(lines, field, k) <==> OnlyNamed(lines, Name(field), k)
  {
    forall j | 0 <= j < |lines| ensures Selects(lines[j], field) <==> Named(lines[j], Name(field)) {
      SelectsIff(lines[j], field);
    }
  }

  lemma {:induction false} FitsIff(lines: seq<Octets>, field: Field, k: nat)
    requires OnlySelected(lines, field, k)
    ensures AllFit(lines, field) <==> Short(lines) && |Raw(lines[k])| <= (if field.JevKey? then 4100 else 16400)
  {
    if AllFit(lines, field) {
      assert Fits(lines, k, field);
      forall j | 0 <= j < |lines| ensures |lines[j]| + (if j < |lines| - 1 then 1 else 0) <= 32768 {
        assert Fits(lines, j, field);
      }
    }
  }

  lemma {:induction false} TextIff(field: Field, raw: Octets, utf8: Octets -> Option<string>, text: string)
    ensures Validate(field, Strip(WithoutReturn(raw)), utf8) == Some(text) <==>
              exists inner :: StandsFor(raw, inner) && Spells(field, inner, utf8, text)
  {
    var v := Strip(WithoutReturn(raw));
    ValidateIff(field, v, utf8, text);
    forall inner ensures StandsFor(raw, inner) <==> Unwraps(v, inner) {
      StandsForIff(raw, inner);
      UnquoteIff(v, inner);
    }
  }

  /** Line `k` alone names the field, before the `=` at `e`, and its raw value stands for the text. */
  ghost predicate TakenFrom(lines: seq<Octets>, field: Field, utf8: Octets -> Option<string>, text: string, k: nat, e: nat) {
    && OnlyNamed(lines, Name(field), k) && NamedAt(lines[k], e, Name(field))
    && |lines[k]| - e - 1 <= (if field.JevKey? then 4100 else 16400)
    && exists inner :: StandsFor(lines[k][e + 1..], inner) && Spells(field, inner, utf8, text)
  }

  lemma {:induction false} FoundIsTaken(lines: seq<Octets>, field: Field, utf8: Octets -> Option<string>, text: string)
    requires FromLines(lines, field, utf8) == Some(text)
    ensures Short(lines) && exists k: nat, e: nat :: TakenFrom(lines, field, utf8, text, k, e)
  {
    var k := PickedIsOnly(lines, field);
    OnlyIsPicked(lines, field, k);
    OnlyNamedIff(lines, field, k);
    FitsIff(lines, field, k);
    SelectsIff(lines[k], field);
    TextIff(field, Raw(lines[k]), utf8, text);
    var e: nat :| NamedAt(lines[k], e, Name(field));
    assert TakenFrom(lines, field, utf8, text, k, e);
  }

  lemma {:induction false} TakenIsFound(
    lines: seq<Octets>, field: Field, utf8: Octets -> Option<string>, text: string, k: nat, e: nat)
    requires Short(lines) && TakenFrom(lines, field, utf8, text, k, e)
    ensures FromLines(lines, field, utf8) == Some(text)
  {
    OnlyNamedIff(lines, field, k);
    OnlyIsPicked(lines, field, k);
    FitsIff(lines, field, k);
    SelectsIff(lines[k], field);
    TextIff(field, Raw(lines[k]), utf8, text);
  }

  /** The file, but for a mark, is these lines with a newline between each two. */
  ghost predicate HasLines(stream: Octets, lines: seq<Octets>) {
    && |lines| > 0 && (forall k :: 0 <= k < |lines| ==> 10 !in lines[k])
    && Unmarked(stream, Join(lines))
  }

  lemma {:induction false} HasLinesIff(stream: Octets, lines: seq<Octets>)
    ensures HasLines(stream, lines) <==> Split(Body(stream)) == lines
  {
    var body := Body(stream);
    UnmarkedIff(stream, body);
    if HasLines(stream, lines) {
      UnmarkedIff(stream, Join(lines));
      SplitJoin(lines);
    } else if Split(body) == lines {
      JoinSplit(body);
      SplitIsFile(body);
    }
  }

  /** The file is within 1 MiB, its lines are short, and one of them alone gives the text. */
  ghost predicate Denotes(stream: Octets, field: Field, utf8: Octets -> Option<string>, text: string) {
    && |stream| <= 1048576
    && exists lines, k: nat, e: nat :: HasLines(stream, lines) && Short(lines) && TakenFrom(lines, field, utf8, text, k, e)
  }

  /**
   * The projector returns a text exactly when the file denotes it: the statement speaks of the bytes
   * of the file and of the constants of the format, and of nothing the projector computes.
   */
  lemma {:induction false} ProjectedIff(stream: Octets, name: Octets, utf8: Octets -> Option<string>, text: string)
    ensures Reference(stream, name, utf8) == Some(text) <==>
              || (name == Codes("jev-key") && Denotes(stream, JevKey, utf8, text))
              || (name == Codes("jev-passport") && Denotes(stream, JevPassport, utf8, text))
  {
    NamesAre();
    assert JEV_KEY[4] == 107 && JEV_PASSPORT[4] == 112;
    var field := Recognise(name);
    if field.Some? { FieldIff(stream, field.value, utf8, text); }
  }

  lemma {:induction false} FieldIff(stream: Octets, field: Field, utf8: Octets -> Option<string>, text: string)
    ensures |stream| <= 1048576 && FromLines(Split(Body(stream)), field, utf8) == Some(text) <==>
              Denotes(stream, field, utf8, text)
  {
    var lines := Split(Body(stream));
    HasLinesIff(stream, lines);
    if FromLines(lines, field, utf8) == Some(text) {
      FoundIsTaken(lines, field, utf8, text);
    }
    if Denotes(stream, field, utf8, text) {
      var lines', k: nat, e: nat :|
        HasLines(stream, lines') && Short(lines') && TakenFrom(lines', field, utf8, text, k, e);
      HasLinesIff(stream, lines');
      TakenIsFound(lines', field, utf8, text, k, e);
    }
  }
}

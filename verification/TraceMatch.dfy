/**
 The greedy trace matchers (scripts/golden_task_assertions.py, assert_trace_sequence_contains,
 assert_trace_event_details and _mapping_contains).
 */
module TraceMatch {

  /** A JSON-like plain value; `Leaf` stands for any scalar. */
  datatype Plain = Leaf(id: int) | List(items: seq<Plain>) | Dict(entries: map<string, Plain>)

  // ---------------------------------------------------------------- subsequence matching

  /** `f` places the expected items, in order, on strictly later and later matching trace steps. */
  ghost predicate Embeds<A(!new), E(!new)>(actual: seq<A>, expected: seq<E>, matches: (A, E) -> bool, f: seq<nat>) {
    && |f| == |expected|
    && (forall i :: 0 <= i < |f| ==> f[i] < |actual| && matches(actual[f[i]], expected[i]))
    && (forall i, j :: 0 <= i < j < |f| ==> f[i] < f[j])
  }

  ghost predicate Embeddable<A(!new), E(!new)>(actual: seq<A>, expected: seq<E>, matches: (A, E) -> bool) {
    exists f :: Embeds(actual, expected, matches, f)
  }

  /** Taking the first match every time finds a placement whenever there is one. */
  method MatchGreedily<A(!new), E(!new)>(actual: seq<A>, expected: seq<E>, matches: (A, E) -> bool)
    returns (found: bool)
    ensures found <==> Embeddable(actual, expected, matches)
  {
    var searchFrom := 0;
    ghost var placed: seq<nat> := [];
    var k := 0;
    while k < |expected|
      invariant 0 <= k <= |expected| && 0 <= searchFrom <= |actual|
      invariant Embeds(actual, expected[..k], matches, placed)
      invariant searchFrom == if k == 0 then 0 else placed[k - 1] + 1
      invariant forall f :: Embeds(actual, expected, matches, f) ==> forall i :: k <= i < |f| ==> searchFrom <= f[i]
    {
      var index := searchFrom;
      while index < |actual| && !matches(actual[index], expected[k])
        invariant searchFrom <= index <= |actual|
        invariant forall i :: searchFrom <= i < index ==> !matches(actual[i], expected[k])
      {
        index := index + 1;
      }
      forall f | Embeds(actual, expected, matches, f) ensures index <= f[k] {
        assert matches(actual[f[k]], expected[k]);
      }
      if index == |actual| { return false; }
      placed := placed + [index];
      searchFrom := index + 1;
      k := k + 1;
    }
    assert expected[..k] == expected;
    return true;
  }

  // ---------------------------------------------------------------- partial mappings

  predicate MappingContains(actual: Plain, expected: map<string, Plain>) {
    Contains(actual, Dict(expected))
  }

  /** One expected value: a mapping is asked for recursively, anything else by equality. */
  predicate Contains(actual: Plain, expected: Plain)
    decreases expected
  {
    if expected.Dict? then
      actual.Dict? &&
      forall key :: key in expected.entries ==>
        key in actual.entries && Contains(actual.entries[key], expected.entries[key])
    else actual == expected
  }

  /** What a value holds under a path of keys, if anything: at most one element. */
  function Lookup(v: Plain, path: seq<string>): (found: seq<Plain>)
    ensures |found| <= 1
    decreases |path|
  {
    if path == [] then [v]
    else if v.Dict? && path[0] in v.entries then Lookup(v.entries[path[0]], path[1..])
    else []
  }

  /** `actual` agrees with `expected` at a path: a mapping where it has one, the same value elsewhere. */
  predicate AgreesAt(actual: Plain, expected: Plain, path: seq<string>) {
    var want := Lookup(expected, path);
    want == [] ||
    var have := Lookup(actual, path);
    have != [] && if want[0].Dict? then have[0].Dict? else have[0] == want[0]
  }

  lemma {:induction false} ContainsAgrees(actual: Plain, expected: Plain, path: seq<string>)
    requires Contains(actual, expected)
    ensures AgreesAt(actual, expected, path)
    decreases |path|
  {
    if path != [] && expected.Dict? && path[0] in expected.entries {
      ContainsAgrees(actual.entries[path[0]], expected.entries[path[0]], path[1..]);
    }
  }

  lemma {:induction false} AgreesContains(actual: Plain, expected: Plain)
    requires forall path :: AgreesAt(actual, expected, path)
    ensures Contains(actual, expected)
    decreases expected
  {
    assert AgreesAt(actual, expected, []);
    if expected.Dict? {
      forall key | key in expected.entries
        ensures key in actual.entries && Contains(actual.entries[key], expected.entries[key])
      {
        assert AgreesAt(actual, expected, [key]);
        assert [key][1..] == [];
        assert Lookup(expected, [key]) == [expected.entries[key]];
        forall path ensures AgreesAt(actual.entries[key], expected.entries[key], path) {
          assert ([key] + path)[0] == key && ([key] + path)[1..] == path;
          assert AgreesAt(actual, expected, [key] + path);
        }
        AgreesContains(actual.entries[key], expected.entries[key]);
      }
    }
  }

  /** The recursive partial match is agreement at every path of the expected mapping, and no more. */
  lemma MappingContainsIsPathwise(actual: Plain, expected: map<string, Plain>)
    ensures MappingContains(actual, expected) <==> forall path :: AgreesAt(actual, Dict(expected), path)
  {
    if MappingContains(actual, expected) {
      forall path ensures AgreesAt(actual, Dict(expected), path) { ContainsAgrees(actual, Dict(expected), path); }
    }
    if forall path :: AgreesAt(actual, Dict(expected), path) { AgreesContains(actual, Dict(expected)); }
  }

  // ---------------------------------------------------------------- traces

  predicate SameEvent(actual: string, expected: string) {
    actual == expected
  }

  /** Strictly later and later positions of a sequence. */
  ghost predicate Rising(f: seq<nat>, n: nat) {
    (forall i :: 0 <= i < |f| ==> f[i] < n) && forall i, j :: 0 <= i < j < |f| ==> f[i] < f[j]
  }

  /** Picking these positions out of the actual events gives the expected ones. */
  ghost predicate Picks(actual: seq<string>, expected: seq<string>, f: seq<nat>) {
    Rising(f, |actual|) && expected == seq(|f|, i requires 0 <= i < |f| => actual[f[i]])
  }

  /** The steps at these positions agree with the expected details along every path of keys. */
  ghost predicate Agree(actual: seq<Plain>, expected: seq<map<string, Plain>>, f: seq<nat>) {
    Rising(f, |actual|) && |f| == |expected| &&
    forall i, path :: 0 <= i < |f| ==> AgreesAt(actual[f[i]], Dict(expected[i]), path)
  }

  lemma PicksIff(actual: seq<string>, expected: seq<string>, f: seq<nat>)
    ensures Picks(actual, expected, f) <==> Embeds(actual, expected, SameEvent, f)
  {
    if Rising(f, |actual|) && |f| == |expected| {
      var picked := seq(|f|, i requires 0 <= i < |f| => actual[f[i]]);
      assert expected == picked <==> forall i :: 0 <= i < |f| ==> SameEvent(actual[f[i]], expected[i]);
    }
  }

  lemma AgreeIff(actual: seq<Plain>, expected: seq<map<string, Plain>>, f: seq<nat>)
    ensures Agree(actual, expected, f) <==> Embeds(actual, expected, MappingContains, f)
  {
    if Rising(f, |actual|) && |f| == |expected| {
      forall i | 0 <= i < |f|
        ensures MappingContains(actual[f[i]], expected[i]) <==> forall path :: AgreesAt(actual[f[i]], Dict(expected[i]), path)
      {
        MappingContainsIsPathwise(actual[f[i]], expected[i]);
      }
    }
  }

  /** The expected events are a subsequence of the actual ones. */
  method AssertTraceSequenceContains(actualEvents: seq<string>, expectedEvents: seq<string>) returns (ok: bool)
    ensures ok <==> exists f :: Picks(actualEvents, expectedEvents, f)
  {
    ok := MatchGreedily(actualEvents, expectedEvents, SameEvent);
    forall f ensures Picks(actualEvents, expectedEvents, f) <==> Embeds(actualEvents, expectedEvents, SameEvent, f) {
      PicksIff(actualEvents, expectedEvents, f);
    }
  }

  method AssertTraceEventDetails(actualSteps: seq<Plain>, expectedDetails: seq<map<string, Plain>>) returns (ok: bool)
    ensures ok <==> exists f :: Agree(actualSteps, expectedDetails, f)
  {
    ok := MatchGreedily(actualSteps, expectedDetails, MappingContains);
    forall f ensures Agree(actualSteps, expectedDetails, f) <==> Embeds(actualSteps, expectedDetails, MappingContains, f) {
      AgreeIff(actualSteps, expectedDetails, f);
    }
  }
}

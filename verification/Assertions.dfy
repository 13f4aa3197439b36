/** Evaluating a probe's assertions against a body that may be only a prefix of the real one. */
module Assertions {
  import opened Wrappers
  import opened BodyCap
  import opened JsonValue

  datatype Assertion =
    | BodyContains(value: seq<byte>)
    | BodyNotContains(value: seq<byte>)
    | JsonPathEquals(path: string, equals: Json)

  datatype ResponseBody = ResponseBody(text: seq<byte>, truncated: bool)

  datatype Reason = Absent | TruncatedAbsence | Forbidden | TruncatedJson | NotJson | NoValue | Different

  datatype AssertionResult = Passed | Failed(reason: Reason)

  /** `JSON.parse`. */
  type Parser = seq<byte> -> Option<Json>

  predicate OccursAt(text: seq<byte>, value: seq<byte>, i: nat) {
    i + |value| <= |text| && text[i..i + |value|] == value
  }

  predicate Includes(text: seq<byte>, value: seq<byte>) {
    exists i: nat :: i <= |text| && OccursAt(text, value, i)
  }

  function EvaluateAssertion(parse: Parser, a: Assertion, body: ResponseBody): AssertionResult {
    match a
    case BodyContains(value) => if Includes(body.text, value) then Passed else Failed(Absent)
    case BodyNotContains(value) =>
      if body.truncated then Failed(TruncatedAbsence)
      else if Includes(body.text, value) then Failed(Forbidden)
      else Passed
    case JsonPathEquals(path, equals) => EvaluateJsonPath(parse, path, equals, body)
  }

  function EvaluateJsonPath(parse: Parser, path: string, equals: Json, body: ResponseBody): AssertionResult {
    if body.truncated then Failed(TruncatedJson)
    else match parse(body.text)
      case None => Failed(NotJson)
      case Some(root) =>
        match Read(root, path)
        case None => Failed(NoValue)
        case Some(value) => if StructurallyEqual(value, equals) then Passed else Failed(Different)
  }

  /** The first failure, or a pass. */
  function EvaluateAssertions(parse: Parser, assertions: seq<Assertion>, body: ResponseBody): AssertionResult {
    if assertions == [] then Passed
    else
      var result := EvaluateAssertion(parse, assertions[0], body);
      if result.Failed? then result else EvaluateAssertions(parse, assertions[1..], body)
  }

  lemma {:induction false} PassesIffAll(parse: Parser, assertions: seq<Assertion>, body: ResponseBody)
    ensures EvaluateAssertions(parse, assertions, body).Passed?
       <==> forall a :: a in assertions ==> EvaluateAssertion(parse, a, body).Passed?
  {
    if assertions != [] {
      PassesIffAll(parse, assertions[1..], body);
      assert forall a :: a in assertions <==> a == assertions[0] || a in assertions[1..];
    }
  }

  /** What the capped read of `whole` hands to the assertions. */
  function Capped(whole: seq<byte>, cap: nat): ResponseBody {
    ResponseBody(whole[..Min(|whole|, cap)], |whole| > cap)
  }

  lemma PrefixIncludes(whole: seq<byte>, n: nat, value: seq<byte>)
    requires n <= |whole| && Includes(whole[..n], value)
    ensures Includes(whole, value)
  {
    var i: nat :| i <= n && OccursAt(whole[..n], value, i);
    assert OccursAt(whole, value, i);
  }

  /**
   * A pass on the capped read is a pass on the whole body. Once the read was cut short, what passes is exactly a list
   * of substrings all found in the part that was kept.
   */
  lemma CappedPassIsSound(parse: Parser, assertions: seq<Assertion>, whole: seq<byte>, cap: nat)
    ensures EvaluateAssertions(parse, assertions, Capped(whole, cap)).Passed? ==>
              EvaluateAssertions(parse, assertions, ResponseBody(whole, false)).Passed?
    ensures |whole| > cap ==>
              (EvaluateAssertions(parse, assertions, Capped(whole, cap)).Passed?
               <==> forall a :: a in assertions ==> a.BodyContains? && Includes(whole[..cap], a.value))
    ensures |whole| <= cap ==>
              EvaluateAssertions(parse, assertions, Capped(whole, cap))
              == EvaluateAssertions(parse, assertions, ResponseBody(whole, false))
  {
    PassesIffAll(parse, assertions, Capped(whole, cap));
    PassesIffAll(parse, assertions, ResponseBody(whole, false));
    if |whole| > cap {
      forall a | a in assertions && EvaluateAssertion(parse, a, Capped(whole, cap)).Passed?
        ensures EvaluateAssertion(parse, a, ResponseBody(whole, false)).Passed?
      {
        PrefixIncludes(whole, cap, a.value);
      }
    } else {
      assert whole[..|whole|] == whole;
    }
  }

  // ---- What a verdict rests on ----

  ghost predicate Within(value: seq<byte>, text: seq<byte>) {
    exists before, after :: text == before + value + after
  }

  lemma IncludesIffWithin(text: seq<byte>, value: seq<byte>)
    ensures Includes(text, value) <==> Within(value, text)
  {
    if Includes(text, value) {
      var i: nat :| i <= |text| && OccursAt(text, value, i);
      assert text == text[..i] + value + text[i + |value|..];
    }
    if before, after :| text == before + value + after {
      OccursAfter(before, value, after);
    }
  }

  lemma OccursAfter(before: seq<byte>, value: seq<byte>, after: seq<byte>)
    ensures Includes(before + value + after, value)
  {
    var text := before + value + after;
    assert text[|before|..|before| + |value|] == value;
    assert OccursAt(text, value, |before|);
  }

  /** What `JSON.parse` yields, and what is expected, name no key twice in an object. */
  ghost predicate WellParsed(parse: Parser, assertions: seq<Assertion>) {
    && (forall text :: parse(text).Some? ==> WellFormed(parse(text).value))
    && forall a :: a in assertions && a.JsonPathEquals? ==> WellFormed(a.equals)
  }

  /** The root has a value at the path that is the expected one, the order of keys aside. */
  ghost predicate HasAt(root: Json, path: string, expected: Json) {
    exists value :: IsAt(root, path, value) && Denote(value) == Denote(expected)
  }

  /** What was read bears the assertion out: presence on what was kept, anything else only on the complete body. */
  ghost predicate Supports(parse: Parser, kept: seq<byte>, complete: bool, a: Assertion) {
    match a
    case BodyContains(value) => Within(value, kept)
    case BodyNotContains(value) => complete && !Within(value, kept)
    case JsonPathEquals(path, expected) => complete && parse(kept).Some? && HasAt(parse(kept).value, path, expected)
  }

  /** Why an assertion that is not borne out is not. */
  ghost predicate Explains(parse: Parser, kept: seq<byte>, complete: bool, a: Assertion, why: Reason) {
    match a
    case BodyContains(_) => why == Absent
    case BodyNotContains(_) => why == if complete then Forbidden else TruncatedAbsence
    case JsonPathEquals(path, _) =>
      if !complete then why == TruncatedJson
      else if parse(kept).None? then why == NotJson
      else if exists value :: IsAt(parse(kept).value, path, value) then why == Different
      else why == NoValue
  }

  /** Every assertion is borne out, or the first that is not is named with its cause. */
  ghost predicate RestsOn(parse: Parser, kept: seq<byte>, complete: bool, assertions: seq<Assertion>,
                          r: AssertionResult) {
    match r
    case Passed => forall a :: a in assertions ==> Supports(parse, kept, complete, a)
    case Failed(why) =>
      exists i :: 0 <= i < |assertions| && !Supports(parse, kept, complete, assertions[i])
               && Explains(parse, kept, complete, assertions[i], why)
               && forall j :: 0 <= j < i ==> Supports(parse, kept, complete, assertions[j])
  }

  lemma JsonVerdict(parse: Parser, path: string, expected: Json, body: ResponseBody)
    requires !body.truncated && parse(body.text).Some?
    requires WellFormed(parse(body.text).value) && WellFormed(expected)
    ensures var root, r := parse(body.text).value, EvaluateJsonPath(parse, path, expected, body);
            && (r.Passed? <==> HasAt(root, path, expected))
            && (r.Failed? ==> r.reason == if exists value :: IsAt(root, path, value) then Different else NoValue)
  {
    var root := parse(body.text).value;
    forall value
      ensures IsAt(root, path, value) <==> Read(root, path) == Some(value)
    {
      ReadIsAt(root, path, value);
    }
    if Read(root, path).Some? {
      var value := Read(root, path).value;
      assert IsAt(root, path, value);
      IsAtIsWellFormed(root, path, value);
      EqualIffSameValue(value, expected);
    }
  }

  lemma VerdictRests(parse: Parser, a: Assertion, body: ResponseBody)
    requires WellParsed(parse, [a])
    ensures EvaluateAssertion(parse, a, body).Passed? <==> Supports(parse, body.text, !body.truncated, a)
    ensures EvaluateAssertion(parse, a, body).Failed? ==>
              Explains(parse, body.text, !body.truncated, a, EvaluateAssertion(parse, a, body).reason)
  {
    assert a in [a];
    match a
    case BodyContains(value) => IncludesIffWithin(body.text, value);
    case BodyNotContains(value) => IncludesIffWithin(body.text, value);
    case JsonPathEquals(path, expected) =>
      if !body.truncated && parse(body.text).Some? {
        JsonVerdict(parse, path, expected, body);
      }
  }

  /** A verdict is what was read, and nothing else, bears out: no evaluator is named in it. */
  lemma {:induction false} VerdictsRest(parse: Parser, assertions: seq<Assertion>, body: ResponseBody)
    requires WellParsed(parse, assertions)
    ensures RestsOn(parse, body.text, !body.truncated, assertions, EvaluateAssertions(parse, assertions, body))
  {
    if assertions != [] {
      var first, rest := assertions[0], assertions[1..];
      assert first in assertions && forall a :: a in assertions ==> a == first || a in rest;
      VerdictRests(parse, first, body);
      if EvaluateAssertion(parse, first, body).Passed? {
        VerdictsRest(parse, rest, body);
        RestsOnMore(parse, body.text, !body.truncated, first, rest, EvaluateAssertions(parse, rest, body));
        assert assertions == [first] + rest;
      } else {
        assert !Supports(parse, body.text, !body.truncated, assertions[0]);
      }
    }
  }

  lemma RestsOnMore(parse: Parser, kept: seq<byte>, complete: bool, first: Assertion, rest: seq<Assertion>,
                    r: AssertionResult)
    requires Supports(parse, kept, complete, first) && RestsOn(parse, kept, complete, rest, r)
    ensures RestsOn(parse, kept, complete, [first] + rest, r)
  {
    var all := [first] + rest;
    assert forall j :: 0 <= j < |rest| ==> all[j + 1] == rest[j];
    if r.Failed? {
      var i :| 0 <= i < |rest| && !Supports(parse, kept, complete, rest[i])
            && Explains(parse, kept, complete, rest[i], r.reason)
            && forall j :: 0 <= j < i ==> Supports(parse, kept, complete, rest[j]);
      assert !Supports(parse, kept, complete, all[i + 1]);
      forall j | 0 <= j < i + 1
        ensures Supports(parse, kept, complete, all[j])
      {
        assert j > 0 ==> all[j] == rest[j - 1];
      }
    }
  }

  /** What a read under the cap keeps. */
  function Kept(whole: seq<byte>, cap: nat): seq<byte> { if |whole| <= cap then whole else whole[..cap] }

  /** The same of any chunked response as it is really read. */
  method ProbeAssertions(parse: Parser, assertions: seq<Assertion>, body: Option<seq<seq<byte>>>, cap: nat)
    returns (r: AssertionResult)
    ensures r == EvaluateAssertions(parse, assertions, Capped(Joined(body.GetOr([])), cap))
    ensures r.Passed? ==> EvaluateAssertions(parse, assertions, ResponseBody(Joined(body.GetOr([])), false)).Passed?
    ensures WellParsed(parse, assertions) ==>
              var whole := Joined(body.GetOr([])); RestsOn(parse, Kept(whole, cap), |whole| <= cap, assertions, r)
  {
    var read, _ := ReadCappedBody(body, cap);
    r := EvaluateAssertions(parse, assertions, ResponseBody(read.text, read.truncated));
    CappedPassIsSound(parse, assertions, Joined(body.GetOr([])), cap);
    if WellParsed(parse, assertions) {
      VerdictsRest(parse, assertions, ResponseBody(read.text, read.truncated));
      assert read.text == Kept(Joined(body.GetOr([])), cap);
    }
  }
}

/** The tag function `upper` of exercises/template-strings/ex.fixed.js.
    A tagged template `upper`s0${v0}s1${v1}…s(n-1)`` calls it with the n literal
    parts `strings` and the n-1 interpolated `values`; it re-joins them with
    every value upper-cased and every literal part copied as it is. */
module TemplateFixed {
  import opened UpperCase

  /** `String(values[i])`: a value past the end of `values` is `undefined`,
      which `String` renders as "undefined". (Values are modelled as strings,
      so `String` is otherwise the identity.) */
  function ValueAt(values: seq<string>, i: nat): (v: string)
    ensures i < |values| ==> v == values[i]
    ensures i >= |values| ==> v == "undefined"
  {
    if i < |values| then values[i] else "undefined"
  }

  /** What the loop appends in round i: nothing before the first literal,
      and the upper-cased value i-1 before each later literal. */
  function Piece(strings: seq<string>, values: seq<string>, i: nat): (r: string)
    requires i < |strings|
  {
    (if i > 0 then UpperStr(ValueAt(values, i - 1)) else "") + strings[i]
  }

  /** The text produced by the first n rounds. */
  function TaggedUpTo(strings: seq<string>, values: seq<string>, n: nat): (r: string)
    requires n <= |strings|
  {
    if n == 0 then "" else TaggedUpTo(strings, values, n - 1) + Piece(strings, values, n - 1)
  }

  /** The string the tag returns: s0 + U(v0) + s1 + … + U(v(n-2)) + s(n-1). */
  function Tagged(strings: seq<string>, values: seq<string>): (r: string)
  {
    TaggedUpTo(strings, values, |strings|)
  }

  /** The loop of `upper`: the accumulator `s` grows by one piece per literal. */
  method Upper(strings: seq<string>, values: seq<string>) returns (s: string)
    ensures s == Tagged(strings, values)
  {
    s := "";
    for i := 0 to |strings|
      invariant s == TaggedUpTo(strings, values, i)
    {
      if i > 0 {
        s := s + UpperStr(ValueAt(values, i - 1));
      }
      s := s + strings[i];
    }
  }

  /** No literal parts: the empty string. */
  lemma TaggedEmpty(values: seq<string>)
    ensures Tagged([], values) == ""
  {
  }

  /** The result starts with the first literal part, unchanged: no value comes before it. */
  lemma {:induction false} TaggedStartsWithFirstLiteral(strings: seq<string>, values: seq<string>, n: nat)
    requires 0 < n <= |strings|
    ensures strings[0] <= TaggedUpTo(strings, values, n)
  {
    if n > 1 {
      TaggedStartsWithFirstLiteral(strings, values, n - 1);
    }
  }

  /** The text of the first k rounds is a prefix of the text of the first n. */
  lemma {:induction false} TaggedPrefix(strings: seq<string>, values: seq<string>, k: nat, n: nat)
    requires k <= n <= |strings|
    ensures TaggedUpTo(strings, values, k) <= TaggedUpTo(strings, values, n)
  {
    if k < n {
      TaggedPrefix(strings, values, k, n - 1);
    }
  }

  /** Every literal part appears in the result verbatim (never upper-cased),
      right after the upper-cased value that precedes it. */
  lemma LiteralVerbatim(strings: seq<string>, values: seq<string>, i: nat)
    requires i < |strings|
    ensures var p := TaggedUpTo(strings, values, i + 1);
            p <= Tagged(strings, values) &&
            |strings[i]| <= |p| && p[|p| - |strings[i]|..] == strings[i]
  {
    TaggedPrefix(strings, values, i + 1, |strings|);
  }

  /** Only the values at indices below |strings| - 1 matter: values that agree
      there give the same result, so any extra values are ignored. */
  lemma {:induction false} TaggedUsesOnlyLeadingValues(strings: seq<string>, v1: seq<string>, v2: seq<string>, n: nat)
    requires n <= |strings|
    requires forall i :: 0 <= i < n - 1 ==> ValueAt(v1, i) == ValueAt(v2, i)
    ensures TaggedUpTo(strings, v1, n) == TaggedUpTo(strings, v2, n)
  {
    if n > 0 {
      TaggedUsesOnlyLeadingValues(strings, v1, v2, n - 1);
    }
  }

  /** In particular the values past the n-1 a tag call supplies can be dropped. */
  lemma ExtraValuesIgnored(strings: seq<string>, values: seq<string>)
    requires 0 < |strings| <= |values| + 1
    ensures Tagged(strings, values) == Tagged(strings, values[..|strings| - 1])
  {
    TaggedUsesOnlyLeadingValues(strings, values, values[..|strings| - 1], |strings|);
  }

  /** The upper-cased values of the exercise's own check. */
  lemma WelcomeValuesUpperCased()
    ensures UpperStr("kyle") == "KYLE"
    ensures UpperStr("getify") == "GETIFY"
    ensures UpperStr("JS Recent Parts") == "JS RECENT PARTS"
  {
  }

  /** The check's literal parts joined with its upper-cased values. */
  lemma WelcomeJoined(name: string, twitter: string, topic: string)
    requires name == "KYLE" && twitter == "GETIFY" && topic == "JS RECENT PARTS"
    ensures "Hello " + name + " (@" + twitter + "), welcome to " + topic + "!"
         == "Hello KYLE (@GETIFY), welcome to JS RECENT PARTS!"
  {
  }

  /** The rounds of the loop on the literal parts and values of the exercise's own check. */
  lemma WelcomeRounds(strings: seq<string>, values: seq<string>)
    requires strings == ["Hello ", " (@", "), welcome to ", "!"]
    requires values == ["kyle", "getify", "JS Recent Parts"]
    ensures Tagged(strings, values)
         == "Hello " + UpperStr("kyle") + " (@" + UpperStr("getify") + "), welcome to " + UpperStr("JS Recent Parts") + "!"
  {
    assert TaggedUpTo(strings, values, 1) == "Hello ";
    assert TaggedUpTo(strings, values, 2) == "Hello " + UpperStr("kyle") + " (@";
    assert TaggedUpTo(strings, values, 3) == "Hello " + UpperStr("kyle") + " (@" + UpperStr("getify") + "), welcome to ";
  }

  /** The exercise's own check: `Hello ${name} (@${twitter}), welcome to ${topic}!`. */
  lemma WelcomeExample()
    ensures Tagged(["Hello ", " (@", "), welcome to ", "!"], ["kyle", "getify", "JS Recent Parts"])
         == "Hello KYLE (@GETIFY), welcome to JS RECENT PARTS!"
  {
    WelcomeRounds(["Hello ", " (@", "), welcome to ", "!"], ["kyle", "getify", "JS Recent Parts"]);
    WelcomeValuesUpperCased();
    WelcomeJoined(UpperStr("kyle"), UpperStr("getify"), UpperStr("JS Recent Parts"));
  }
}

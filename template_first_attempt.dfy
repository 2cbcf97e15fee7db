/** The first attempt at the tag function `upper`, in exercises/template-strings/ex.js.
    Round i appends literal part i and then, when there is a value i, that
    value upper-cased, so a value is placed after its literal part instead of
    before the next one. */
module TemplateFirstAttempt {
  import opened UpperCase
  import TemplateFixed

  /** Value i upper-cased, or nothing when `values` has no index i.
      (In the source a value that is not a string has no `toUpperCase` and
      the call throws; values are modelled as strings, so that cannot happen.) */
  function TrailingValue(values: seq<string>, i: nat): (t: string)
    ensures i < |values| ==> t == UpperStr(values[i])
    ensures i >= |values| ==> t == ""
  {
    if i < |values| then UpperStr(values[i]) else ""
  }

  /** What the loop appends in round i. */
  function Piece(strings: seq<string>, values: seq<string>, i: nat): (r: string)
    requires i < |strings|
  {
    strings[i] + TrailingValue(values, i)
  }

  /** The text produced by the first n rounds. */
  function UpTo(strings: seq<string>, values: seq<string>, n: nat): (r: string)
    requires n <= |strings|
  {
    if n == 0 then "" else UpTo(strings, values, n - 1) + Piece(strings, values, n - 1)
  }

  /** The string the first attempt returns: s0 + U(v0) + s1 + U(v1) + …, one value after each part that has one. */
  function Tagged(strings: seq<string>, values: seq<string>): (r: string)
  {
    UpTo(strings, values, |strings|)
  }

  /** The loop of the first attempt, accumulating into `str`. */
  method Upper(strings: seq<string>, values: seq<string>) returns (str: string)
    ensures str == Tagged(strings, values)
  {
    str := "";
    for i := 0 to |strings|
      invariant str == UpTo(strings, values, i)
    {
      if i < |values| {
        str := str + (strings[i] + UpperStr(values[i]));
      } else {
        str := str + strings[i];
      }
    }
  }

  /** `values` followed by m empty strings. */
  function Padded(values: seq<string>, m: nat): (p: seq<string>)
    ensures |p| == |values| + m
    ensures forall i :: 0 <= i < |values| ==> p[i] == values[i]
    ensures forall i :: |values| <= i < |p| ==> p[i] == ""
  {
    values + seq(m, _ => "")
  }

  /** The first attempt is the fixed `upper` applied to the values padded with
      empty strings (so a missing value contributes nothing), followed by the
      upper-cased value at index n-1 when there is one. */
  lemma {:induction false} UpToAsFixed(strings: seq<string>, values: seq<string>, n: nat)
    requires 0 < n <= |strings|
    ensures UpTo(strings, values, n)
         == TemplateFixed.TaggedUpTo(strings, Padded(values, |strings|), n) + TrailingValue(values, n - 1)
  {
    if n > 1 {
      UpToAsFixed(strings, values, n - 1);
      var p := Padded(values, |strings|);
      assert UpperStr(TemplateFixed.ValueAt(p, n - 2)) == TrailingValue(values, n - 2);
    }
  }

  /** The padding is never seen by the fixed `upper` when there are already enough values. */
  lemma PaddingUnused(strings: seq<string>, values: seq<string>)
    requires |strings| <= |values| + 1
    ensures TemplateFixed.Tagged(strings, Padded(values, |strings|)) == TemplateFixed.Tagged(strings, values)
  {
    TemplateFixed.TaggedUsesOnlyLeadingValues(strings, Padded(values, |strings|), values, |strings|);
  }

  /** On every tag call (one value fewer than literal parts) the first attempt and the fixed version agree. */
  lemma AgreesOnTagCalls(strings: seq<string>, values: seq<string>)
    requires |values| + 1 == |strings|
    ensures Tagged(strings, values) == TemplateFixed.Tagged(strings, values)
  {
    UpToAsFixed(strings, values, |strings|);
    PaddingUnused(strings, values);
  }

  /** With as many values as literal parts or more, the first attempt appends the
      upper-cased value at index |strings|-1 after what the fixed version returns,
      so its result ends with a value where the fixed one ends with the last literal part. */
  lemma EndsWithValue(strings: seq<string>, values: seq<string>)
    requires 0 < |strings| <= |values|
    ensures Tagged(strings, values) == TemplateFixed.Tagged(strings, values) + UpperStr(values[|strings| - 1])
  {
    UpToAsFixed(strings, values, |strings|);
    PaddingUnused(strings, values);
  }

  /** With fewer values than a tag call supplies, a missing value adds nothing,
      where the fixed version inserts "UNDEFINED". */
  lemma MissingValuesDropped(strings: seq<string>, values: seq<string>)
    requires |values| + 1 < |strings|
    ensures Tagged(strings, values) == TemplateFixed.Tagged(strings, Padded(values, |strings|))
  {
    UpToAsFixed(strings, values, |strings|);
  }

  /** How the length of the fixed result depends on the lengths of the values it uses. */
  lemma {:induction false} FixedLengthGrows(strings: seq<string>, v1: seq<string>, v2: seq<string>, n: nat, j: nat)
    requires n <= |strings|
    requires forall i :: 0 <= i < n - 1 ==> |TemplateFixed.ValueAt(v1, i)| >= |TemplateFixed.ValueAt(v2, i)|
    ensures |TemplateFixed.TaggedUpTo(strings, v1, n)| >= |TemplateFixed.TaggedUpTo(strings, v2, n)|
    ensures j < n - 1 && |TemplateFixed.ValueAt(v1, j)| > |TemplateFixed.ValueAt(v2, j)| ==>
            |TemplateFixed.TaggedUpTo(strings, v1, n)| > |TemplateFixed.TaggedUpTo(strings, v2, n)|
  {
    if n > 0 {
      FixedLengthGrows(strings, v1, v2, n - 1, j);
    }
  }

  /** Off tag calls the two versions really differ: with too few values always,
      with too many whenever the value at index |strings|-1 is not empty. */
  lemma DiffersOffTagCalls(strings: seq<string>, values: seq<string>)
    requires 0 < |strings|
    requires |values| + 1 < |strings| || (|strings| <= |values| && values[|strings| - 1] != "")
    ensures Tagged(strings, values) != TemplateFixed.Tagged(strings, values)
  {
    if |strings| <= |values| {
      EndsWithValue(strings, values);
    } else {
      MissingValuesDropped(strings, values);
      var p := Padded(values, |strings|);
      FixedLengthGrows(strings, values, p, |strings|, |values|);
    }
  }

  /** Values at index |strings| and beyond are never read: dropping them changes nothing. */
  lemma {:induction false} IgnoresValuesPastStrings(strings: seq<string>, values: seq<string>, n: nat)
    requires n <= |strings| <= |values|
    ensures UpTo(strings, values, n) == UpTo(strings, values[..|strings|], n)
  {
    if n > 0 {
      IgnoresValuesPastStrings(strings, values, n - 1);
    }
  }

  /** The exercise's own check holds for the first attempt too. */
  lemma WelcomeExample()
    ensures Tagged(["Hello ", " (@", "), welcome to ", "!"], ["kyle", "getify", "JS Recent Parts"])
         == "Hello KYLE (@GETIFY), welcome to JS RECENT PARTS!"
  {
    AgreesOnTagCalls(["Hello ", " (@", "), welcome to ", "!"], ["kyle", "getify", "JS Recent Parts"]);
    TemplateFixed.WelcomeExample();
  }
}

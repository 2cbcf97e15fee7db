# javascript-the-recent-parts: verified model of three exercises

This project models three small exercises from the repository, each in its
"fixed" form and in the first attempt that sits beside it:

- **Tagged-template upper-casing** (`exercises/template-strings/`): the tag
  function `upper(strings, ...values)` joins the literal parts of a template
  with its interpolated values, upper-casing the values only. The fixed
  version puts value i-1 before literal part i. The first attempt puts value i
  after literal part i when value i exists.
- **Range generator** (`exercises/iterators-generators/`): the generator
  `numbers[Symbol.iterator]({start, stop, step} = {})` yields `start`,
  `start + step`, … for as long as the value does not exceed `stop`. The first
  attempt takes `{start, end, step}` but always counts from 0 to 100 by `step`.
- **Destructuring with defaults** (`exercises/destructuring/`): `handleResponse`
  turns a partial response object into a complete
  `{topic, format, slides: {start, end}}` and hands it to `TestCase`. The first
  attempt uses the topic default "Javascript". Its whole-parameter default
  `= defaults = {}` also assigns the script's top-level `defaults` variable,
  but only when the function is called without an argument.

Modules, one per source file plus two helpers:

| module | file | models |
|---|---|---|
| `Wrappers` | wrappers.dfy | `Option`: `None` is an absent (undefined) property or argument |
| `UpperCase` | upper_case.dfy | `toUpperCase` on ASCII letters |
| `TemplateFixed` | template_fixed.dfy | exercises/template-strings/ex.fixed.js |
| `TemplateFirstAttempt` | template_first_attempt.dfy | exercises/template-strings/ex.js |
| `RangeIterator` | range_iterator.dfy | exercises/iterators-generators/ex.fixed.js |
| `RangeIteratorFirstAttempt` | range_iterator_first_attempt.dfy | exercises/iterators-generators/response-ex.js |
| `Destructuring` | destructuring.dfy | exercises/destructuring/ex.fixed.js |
| `DestructuringFirstAttempt` | destructuring_first_attempt.dfy | exercises/destructuring/ex-first-attempt.js |

The loops of both `upper` functions and both generators are methods with loop
invariants. Each is proved equal to a pure function (`Tagged`, `Yields`), and
the lemmas are stated about those functions. Running a generator to completion
is modelled as returning everything it yields, as a `seq<int>`. The
destructuring in `handleResponse` is a pure function from a record of `Option`
fields to a complete record. The first attempt's assignment to its top-level
`defaults` is a method of the class `Script`, whose field `defaults` is the
script's variable.

The fixed `upper` calls `String(values[i-1])`. When `values` is too short,
that value is `undefined` and prints as "undefined", so the fixed function
inserts "UNDEFINED". The model keeps this behaviour; see `TemplateFixed.ValueAt`.

## Model

| member | source | states |
|---|---|---|
| `UpperCase.UpperChar` | exercises/template-strings/ex.fixed.js:5 | a lower-case ASCII letter maps to its upper-case letter (code minus 32); every other character is unchanged; the result is never a lower-case letter |
| `UpperCase.UpperStr` | exercises/template-strings/ex.fixed.js:5 | upper-casing keeps the length and maps each character by `UpperChar` |
| `TemplateFixed.ValueAt` | exercises/template-strings/ex.fixed.js:5 | `String(values[i])` is the value when index i exists and "undefined" past the end |
| `TemplateFixed.Upper` | exercises/template-strings/ex.fixed.js:1-10 | the loop's accumulator ends equal to `Tagged`: s0 + U(v0) + s1 + … + U(v(n-2)) + s(n-1) |
| `TemplateFixed.TaggedEmpty` | exercises/template-strings/ex.fixed.js:2-9 | no literal parts give "" |
| `TemplateFixed.TaggedStartsWithFirstLiteral` | exercises/template-strings/ex.fixed.js:4-7 | the result begins with `strings[0]` unchanged; no value comes before it |
| `TemplateFixed.TaggedPrefix` | exercises/template-strings/ex.fixed.js:3-8 | the text of the first k rounds is a prefix of the text of any later round, so appended text is never rewritten |
| `TemplateFixed.LiteralVerbatim` | exercises/template-strings/ex.fixed.js:7 | every literal part appears verbatim, not upper-cased, at the end of the prefix its round produces, and that prefix begins the result |
| `TemplateFixed.TaggedUsesOnlyLeadingValues` | exercises/template-strings/ex.fixed.js:3-5 | two value lists that agree below index n-1 give the same result: no other value is read |
| `TemplateFixed.ExtraValuesIgnored` | exercises/template-strings/ex.fixed.js:3-5 | values beyond the first |strings|-1 can be dropped without changing the result |
| `TemplateFixed.WelcomeRounds` | exercises/template-strings/ex.fixed.js:16-17 | the four rounds on the exercise's template give "Hello " + U("kyle") + " (@" + U("getify") + "), welcome to " + U("JS Recent Parts") + "!" |
| `TemplateFixed.WelcomeExample` | exercises/template-strings/ex.fixed.js:12-19 | the exercise's check: the result is "Hello KYLE (@GETIFY), welcome to JS RECENT PARTS!" |
| `TemplateFirstAttempt.TrailingValue` | exercises/template-strings/ex.js:16-19 | round i adds upper-cased value i when `i < values.length` and nothing otherwise |
| `TemplateFirstAttempt.Upper` | exercises/template-strings/ex.js:13-23 | the loop's accumulator ends equal to the first attempt's `Tagged`: part i, then value i when it exists |
| `TemplateFirstAttempt.UpToAsFixed` | exercises/template-strings/ex.js:15-21 | after n rounds the first attempt equals the fixed `upper` on the values padded with empty strings, followed by upper-cased value n-1 when it exists |
| `TemplateFirstAttempt.AgreesOnTagCalls` | exercises/template-strings/ex.js:15-21 | with `values.length == strings.length - 1` (every tag call) the first attempt equals the fixed version |
| `TemplateFirstAttempt.EndsWithValue` | exercises/template-strings/ex.js:16-17 | with `values.length >= strings.length > 0` the result is the fixed result followed by upper-cased `values[strings.length-1]` |
| `TemplateFirstAttempt.MissingValuesDropped` | exercises/template-strings/ex.js:18-19 | with too few values a missing value adds nothing, where the fixed version adds "UNDEFINED" |
| `TemplateFirstAttempt.DiffersOffTagCalls` | exercises/template-strings/ex.js:15-21 | off tag calls the two results always differ when values are missing, and differ when there are too many values and `values[strings.length-1]` is non-empty |
| `TemplateFirstAttempt.IgnoresValuesPastStrings` | exercises/template-strings/ex.js:15 | values at index `strings.length` and beyond are never read |
| `TemplateFirstAttempt.WelcomeExample` | exercises/template-strings/ex.js:25-32 | the exercise's check holds for the first attempt too |
| `RangeIterator.Resolve` | exercises/iterators-generators/ex.fixed.js:2-6 | each option takes the given value, or its own default (start 0, stop 100, step 1) when omitted; a missing argument is `{}` |
| `RangeIterator.Numbers` | exercises/iterators-generators/ex.fixed.js:7-9 | the loop `num = start; num <= stop; num += step` yields exactly `Range(start, stop, step)`, for a positive step and for any step when start > stop |
| `RangeIterator.RangeLength` | exercises/iterators-generators/ex.fixed.js:7 | the count is 0 when start > stop, else (stop - start) / step + 1 |
| `RangeIterator.RangeAt` | exercises/iterators-generators/ex.fixed.js:7 | the k-th value is start + k * step |
| `RangeIterator.RangeStartsAtStart` | exercises/iterators-generators/ex.fixed.js:7 | when start <= stop the first value is `start`; when start > stop nothing is yielded |
| `RangeIterator.RangeEmptyPastStop` | exercises/iterators-generators/ex.fixed.js:7 | when start > stop nothing is yielded, whatever the step, including a zero or negative one |
| `RangeIterator.RangeSpacing` | exercises/iterators-generators/ex.fixed.js:7 | consecutive values differ by exactly `step`, and the values strictly increase |
| `RangeIterator.RangeBounds` | exercises/iterators-generators/ex.fixed.js:7 | every value lies in [start, stop], and the last one is above stop - step, so nothing in range is skipped at the end |
| `RangeIterator.RangeMembership` | exercises/iterators-generators/ex.fixed.js:7 | v is yielded if and only if start <= v <= stop and v - start is a multiple of step |
| `RangeIterator.NoArgumentIsEmptyObject` | exercises/iterators-generators/ex.fixed.js:3-6 | no argument resolves like `{}`, to start 0, stop 100, step 1 |
| `RangeIterator.DefaultYieldsZeroToHundred` | exercises/iterators-generators/ex.fixed.js:13-16 | without an argument the values are 0, 1, …, 100: 101 values, the k-th being k |
| `RangeIterator.LuckyNumbers` | exercises/iterators-generators/ex.fixed.js:18-24 | `{start: 6, stop: 30, step: 4}` yields [6, 10, 14, 18, 22, 26, 30] |
| `RangeIteratorFirstAttempt.Resolve` | exercises/iterators-generators/response-ex.js:2-6 | each of start, end and step takes the given value, or its own default (0, 100, 1) |
| `RangeIteratorFirstAttempt.Numbers` | exercises/iterators-generators/response-ex.js:7-9 | the loop `i = 0; i <= 100; i += step` yields `Range(0, 100, step)` |
| `RangeIteratorFirstAttempt.OnlyStepMatters` | exercises/iterators-generators/response-ex.js:2-10 | two arguments with the same resolved step yield the same values, whatever their start and end |
| `RangeIteratorFirstAttempt.StartAndEndIgnored` | exercises/iterators-generators/response-ex.js:7 | the first value is always 0, no value exceeds 100, and consecutive values are `step` apart |
| `RangeIteratorFirstAttempt.MultiplesOfStep` | exercises/iterators-generators/response-ex.js:7 | the k-th value is k * step, so every value is a multiple of step |
| `RangeIteratorFirstAttempt.DefaultStepYieldsZeroToHundred` | exercises/iterators-generators/response-ex.js:13-16 | with step 1 it yields 0..100, the same as the fixed generator without options |
| `RangeIteratorFirstAttempt.ComparedWithFixed` | exercises/iterators-generators/response-ex.js:2-10 | it matches the fixed generator when start resolves to 0 and end to 100, and differs from it whenever start resolves to anything else |
| `RangeIteratorFirstAttempt.LuckyNumbersIgnored` | exercises/iterators-generators/response-ex.js:2-10 | with `{start: 6, end: 30, step: 4}` it yields 26 values, from 0 to 100 |
| `Destructuring.FillSlides` | exercises/destructuring/ex.fixed.js:19-22 | a missing `slides` is `{start: 0, end: 100}`; with `slides` given, `start` and `end` are each kept or defaulted on their own |
| `Destructuring.HandleResponse` | exercises/destructuring/ex.fixed.js:16-32 | a given topic and format are kept; a missing topic is "JavaScript", a missing format "Live"; slides as `FillSlides` |
| `Destructuring.CompletePassesThrough` | exercises/destructuring/ex.fixed.js:16-30 | an object with every property given comes back unchanged, and the output carries only the four values |
| `Destructuring.HandleResponseIdempotent` | exercises/destructuring/ex.fixed.js:16-30 | filling in the defaults of an already filled record changes nothing |
| `Destructuring.NoArgumentAllDefaults` | exercises/destructuring/ex.fixed.js:23 | no argument is `{}` and yields {"JavaScript", "Live", {0, 100}} |
| `Destructuring.TestCase` | exercises/destructuring/ex.fixed.js:34-41 | the four comparisons (topic == "JS Recent Parts", format == "Live", slides.start === 0, slides.end == 77) hold exactly of the record {"JS Recent Parts", "Live", {0, 77}} |
| `Destructuring.FakeAjaxPayload` | exercises/destructuring/ex.fixed.js:47-55 | the fixture has topic "JS Recent Parts", no format, and slides with only `end: 77` |
| `Destructuring.TestCaseExactly` | exercises/destructuring/ex.fixed.js:34-41 | the printed check is true if and only if the topic is given as "JS Recent Parts", `end` is given as 77, and format and start are absent or at their defaults |
| `Destructuring.FixturePasses` | exercises/destructuring/ex.fixed.js:34-55 | on the fixture payload the check is true |
| `DestructuringFirstAttempt.Fill` | exercises/destructuring/ex-first-attempt.js:16-22 | a given topic is kept and a missing one is "Javascript"; format and slides are filled as in the fixed version |
| `DestructuringFirstAttempt.Script.constructor` | exercises/destructuring/ex-first-attempt.js:1-8 | the top-level `defaults` starts as {"JavaScript", "Live", {0, 100}} |
| `DestructuringFirstAttempt.Script.HandleResponse` | exercises/destructuring/ex-first-attempt.js:16-36 | without an argument `defaults` becomes `{}`, and that `{}` is destructured; with an argument `defaults` is unchanged; the data passed on carries the new `defaults` and the filled fields |
| `DestructuringFirstAttempt.RunScript` | exercises/destructuring/ex-first-attempt.js:10-67 | loading the script (`fakeAjax` calling `handleResponse` with its payload) prints true and leaves `defaults` at its initial value |
| `DestructuringFirstAttempt.NoArgumentIsEmptyObject` | exercises/destructuring/ex-first-attempt.js:23 | without an argument the result is that of `{}`: the module's `defaults` object never supplies a value |
| `DestructuringFirstAttempt.TopicDefaultDiffers` | exercises/destructuring/ex-first-attempt.js:1-17 | the topic default "Javascript" differs from the module `defaults.topic` and from the fixed version's default |
| `DestructuringFirstAttempt.SameAsFixedIffTopicGiven` | exercises/destructuring/ex-first-attempt.js:17 | the first attempt and the fixed version give the same record if and only if a topic is supplied |
| `DestructuringFirstAttempt.TestCase` | exercises/destructuring/ex-first-attempt.js:47-54 | the same four comparisons on topic, format, slides.start and slides.end; the `defaults` the data carries is never read, so the answer is the fixed `TestCase` on the other four values |
| `DestructuringFirstAttempt.TestCaseIgnoresDefaults` | exercises/destructuring/ex-first-attempt.js:47-54 | `TestCase` gives the same answer whatever the extra `defaults` property holds |
| `DestructuringFirstAttempt.FixturePasses` | exercises/destructuring/ex-first-attempt.js:47-67 | on the fixture payload the check is true, whatever `defaults` holds |

## Left out

- `console.log` output, and the `fakeAjax` callback indirection: `TestCase` is a predicate, and `handleResponse` returns the record it would pass on.
- Full Unicode `toUpperCase`: only ASCII a–z is mapped. A Unicode mapping can change a string's length.
- `String(...)` coercion of non-string values: values are strings. In exercises/template-strings/ex.js:17 a non-string value has no `toUpperCase`, and the call would throw.
- Generators that never finish: in exercises/iterators-generators/ex.fixed.js a step of zero or less loops forever when start <= stop, so `RangeIterator.Numbers` requires a positive step or start > stop. In exercises/iterators-generators/response-ex.js the loop starts at 0 <= 100, so any step of zero or less loops forever, and `RangeIteratorFirstAttempt.Numbers` requires a positive step.
- Numbers are unbounded integers, not JavaScript doubles.
- Laziness of the generators: a generator yields on demand, but the model collects every value it would yield into one sequence.
- The expression at exercises/iterators-generators/response-ex.js:20 calls `Symbol.iterator` as a function and does not reach the generator.
- JavaScript `null` (which skips a default and would throw on `slides`), and properties other than those the patterns name: an absent property is `None`.
- Dynamic typing of the response fields: topic and format are strings, start and end are integers, so `==` and `===` agree.
- exercises/async-await/ex.js: `loadFiles` has an empty body, and the rest is promise and timer plumbing with a random delay.
- exercises/regex/ex.fixed.js: `powers` is a thin wrapper around the JavaScript regular-expression engine.

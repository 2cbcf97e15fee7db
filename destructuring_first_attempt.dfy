/** The first attempt at `handleResponse`, in exercises/destructuring/ex-first-attempt.js.
    Its inline defaults differ from the fixed version only in the topic
    ("Javascript"), and its whole-parameter default is `defaults = {}`: an
    assignment to the script's top-level variable `defaults`, evaluated only
    when the function is called without an argument. */
module DestructuringFirstAttempt {
  import opened Wrappers
  import opened Destructuring

  /** The value the script's `var defaults` starts with. */
  const ModuleDefaults := ResponseArg(Some("JavaScript"), Some("Live"), Some(SlidesArg(Some(0), Some(100))))

  /** The inline defaults of this version, applied to the object being destructured. */
  function Fill(arg: Option<ResponseArg>): (r: Response)
    ensures arg.Some? && arg.value.topic.Some? ==> r.topic == arg.value.topic.value
    ensures (arg.None? || arg.value.topic.None?) ==> r.topic == "Javascript"
    ensures r.format == Destructuring.HandleResponse(arg).format
    ensures r.slides == Destructuring.HandleResponse(arg).slides
  {
    var o := arg.GetOr(EmptyObject);
    Response(o.topic.GetOr("Javascript"), o.format.GetOr("Live"), FillSlides(o.slides))
  }

  /** The object literal this version passes to `TestCase`: it also carries `defaults`. */
  datatype TestData = TestData(defaults: ResponseArg, topic: string, format: string, slides: Slides)

  /** The same check as in the fixed file; the extra `defaults` property is never looked at. */
  predicate TestCase(data: TestData)
    ensures TestCase(data) <==> Destructuring.TestCase(Response(data.topic, data.format, data.slides))
  {
    data.topic == "JS Recent Parts" && data.format == "Live" &&
    data.slides.start == 0 && data.slides.end == 77
  }

  /** The script's top-level scope: the one variable `handleResponse` may assign. */
  class Script {
    var defaults: ResponseArg

    /** `var defaults = { topic: "JavaScript", format: "Live", slides: { start: 0, end: 100 } }`. */
    constructor ()
      ensures defaults == ModuleDefaults
    {
      defaults := ModuleDefaults;
    }

    /** `handleResponse(arg)`: without an argument the default expression
        `defaults = {}` runs, so `defaults` becomes `{}` and that `{}` is what
        is destructured; with an argument `defaults` is left alone. */
    method HandleResponse(arg: Option<ResponseArg>) returns (data: TestData)
      modifies this
      ensures defaults == if arg.None? then EmptyObject else old(defaults)
      ensures data == TestData(defaults, Fill(arg).topic, Fill(arg).format, Fill(arg).slides)
    {
      var received: ResponseArg;
      if arg.None? {
        defaults := EmptyObject;
        received := defaults;
      } else {
        received := arg.value;
      }
      var r := Fill(Some(received));
      data := TestData(defaults, r.topic, r.format, r.slides);
    }
  }

  /** Running the script: `fakeAjax` calls `handleResponse` with its payload at
      load time; the check is true and `defaults` keeps its initial value. */
  method RunScript() returns (passed: bool, defaultsAfter: ResponseArg)
    ensures passed
    ensures defaultsAfter == ModuleDefaults
  {
    var script := new Script();
    var data := script.HandleResponse(Some(FakeAjaxPayload()));
    passed := TestCase(data);
    defaultsAfter := script.defaults;
  }

  /** The module's `defaults` object never supplies a default: with no argument it is
      overwritten by `{}` before destructuring, so the result is that of `{}`. */
  lemma NoArgumentIsEmptyObject()
    ensures Fill(None) == Fill(Some(EmptyObject)) == Response("Javascript", "Live", Slides(0, 100))
  {
  }

  /** The topic default "Javascript" differs from the topic in the module's
      `defaults` and from the fixed version's default "JavaScript". */
  lemma TopicDefaultDiffers()
    ensures Fill(None).topic != ModuleDefaults.topic.value
    ensures Fill(None).topic != Destructuring.HandleResponse(None).topic
  {
  }

  /** The two versions give the same record exactly when a topic is supplied. */
  lemma SameAsFixedIffTopicGiven(arg: Option<ResponseArg>)
    ensures Fill(arg) == Destructuring.HandleResponse(arg) <==> arg.Some? && arg.value.topic.Some?
  {
  }

  /** `TestCase` ignores the extra `defaults` property. */
  lemma TestCaseIgnoresDefaults(data: TestData, d: ResponseArg)
    ensures TestCase(data.(defaults := d)) == TestCase(data)
  {
  }

  /** On the fixture payload the check is true here too, whatever `defaults` holds. */
  lemma FixturePasses(d: ResponseArg)
    ensures var r := Fill(Some(FakeAjaxPayload()));
            TestCase(TestData(d, r.topic, r.format, r.slides))
  {
  }
}

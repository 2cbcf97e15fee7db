/** `handleResponse` of exercises/destructuring/ex.fixed.js: parameter
    destructuring with defaults turns a partial response object into the
    complete record it hands to `TestCase`. */
module Destructuring {
  import opened Wrappers

  /** The `slides` part of a response as received; `None` is an absent property. */
  datatype SlidesArg = SlidesArg(start: Option<int>, end: Option<int>)

  /** A response object as received. */
  datatype ResponseArg = ResponseArg(topic: Option<string>, format: Option<string>, slides: Option<SlidesArg>)

  /** The filled-in `slides`. */
  datatype Slides = Slides(start: int, end: int)

  /** The object literal `{ topic, format, slides: { start, end } }` passed to `TestCase`:
      these four values and nothing else. */
  datatype Response = Response(topic: string, format: string, slides: Slides)

  /** The object `{}`. */
  const EmptyObject := ResponseArg(None, None, None)

  /** `slides: { start = 0, end = 100 } = {}`: a missing `slides` is `{}`,
      then `start` and `end` are each defaulted on their own. */
  function FillSlides(slides: Option<SlidesArg>): (s: Slides)
    ensures slides.Some? && slides.value.start.Some? ==> s.start == slides.value.start.value
    ensures slides.Some? && slides.value.end.Some? ==> s.end == slides.value.end.value
    ensures (slides.None? || slides.value.start.None?) ==> s.start == 0
    ensures (slides.None? || slides.value.end.None?) ==> s.end == 100
  {
    var o := slides.GetOr(SlidesArg(None, None));
    Slides(o.start.GetOr(0), o.end.GetOr(100))
  }

  /** The whole parameter pattern: a missing argument is `{}`; a missing `topic`
      is "JavaScript", a missing `format` is "Live". */
  function HandleResponse(arg: Option<ResponseArg>): (r: Response)
    ensures arg.Some? && arg.value.topic.Some? ==> r.topic == arg.value.topic.value
    ensures arg.Some? && arg.value.format.Some? ==> r.format == arg.value.format.value
    ensures (arg.None? || arg.value.topic.None?) ==> r.topic == "JavaScript"
    ensures (arg.None? || arg.value.format.None?) ==> r.format == "Live"
    ensures r.slides == FillSlides(if arg.Some? then arg.value.slides else None)
  {
    var o := arg.GetOr(EmptyObject);
    Response(o.topic.GetOr("JavaScript"), o.format.GetOr("Live"), FillSlides(o.slides))
  }

  /** A response object in which every property is present. */
  function Complete(r: Response): (a: ResponseArg)
    ensures a.topic.Some? && a.format.Some? && a.slides.Some?
    ensures a.slides.value.start.Some? && a.slides.value.end.Some?
  {
    ResponseArg(Some(r.topic), Some(r.format), Some(SlidesArg(Some(r.slides.start), Some(r.slides.end))))
  }

  /** Supplied values pass through unchanged: a complete object comes back as it went in. */
  lemma CompletePassesThrough(r: Response)
    ensures HandleResponse(Some(Complete(r))) == r
  {
  }

  /** Filling in defaults a second time changes nothing. */
  lemma HandleResponseIdempotent(arg: Option<ResponseArg>)
    ensures HandleResponse(Some(Complete(HandleResponse(arg)))) == HandleResponse(arg)
  {
    CompletePassesThrough(HandleResponse(arg));
  }

  /** Calling with no argument is calling with `{}`, and every default applies. */
  lemma NoArgumentAllDefaults()
    ensures HandleResponse(None) == HandleResponse(Some(EmptyObject))
    ensures HandleResponse(None) == Response("JavaScript", "Live", Slides(0, 100))
  {
  }

  /** The check the exercise prints: its four comparisons hold of exactly one record. */
  predicate TestCase(data: Response)
    ensures TestCase(data) <==> data == Response("JS Recent Parts", "Live", Slides(0, 77))
  {
    data.topic == "JS Recent Parts" && data.format == "Live" &&
    data.slides.start == 0 && data.slides.end == 77
  }

  /** The payload `fakeAjax` passes to the callback. */
  function FakeAjaxPayload(): (a: ResponseArg)
    ensures a.topic == Some("JS Recent Parts") && a.format.None?
    ensures a.slides == Some(SlidesArg(None, Some(77)))
  {
    ResponseArg(Some("JS Recent Parts"), None, Some(SlidesArg(None, Some(77))))
  }

  /** Exactly which arguments make the printed check true: the topic must be given
      as "JS Recent Parts", `end` must be given as 77, and `format` and `start`
      must be absent or equal to their defaults. */
  lemma TestCaseExactly(arg: Option<ResponseArg>)
    ensures TestCase(HandleResponse(arg)) <==>
            arg.Some? && arg.value.topic == Some("JS Recent Parts") &&
            arg.value.format.GetOr("Live") == "Live" &&
            arg.value.slides.Some? &&
            arg.value.slides.value.start.GetOr(0) == 0 &&
            arg.value.slides.value.end == Some(77)
  {
  }

  /** The fixture makes the check print true. */
  lemma FixturePasses()
    ensures TestCase(HandleResponse(Some(FakeAjaxPayload())))
  {
    TestCaseExactly(Some(FakeAjaxPayload()));
  }
}

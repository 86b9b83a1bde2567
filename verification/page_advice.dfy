/** The response advice that rewrites paged results into a map whose keys are
    chosen by the flags of the `CustomPageResponse` annotation. */
module PageAdvice {
  import opened Wrappers
  import opened PageFields

  /** A response body as the advice sees it. `ApiResponse` carries its status,
      message and optional data; anything else is `Other`. */
  datatype Body =
    | PageBody(page: Page)
    | ApiBody(status: int, message: string, data: Option<Body>)
    | MapBody(entries: map<string, Value>)
    | Other(tag: int)

  /** The annotated controller method, reduced to its annotation. */
  datatype MethodParameter = MethodParameter(annotation: Option<CustomPageResponse>)

  /** `supports`: the advice applies to methods carrying the annotation. */
  predicate Supports(m: MethodParameter) {
    m.annotation.Some?
  }

  /** `handleApiResponse`: only page data is rewritten; status and message stay. */
  function HandleApiResponse(body: Body, a: CustomPageResponse): (r: Body)
    requires body.ApiBody?
    ensures body.data.Some? && body.data.value.PageBody? ==>
              r == ApiBody(body.status, body.message, Some(MapBody(ToCustomMap(body.data.value.page, a))))
    ensures !(body.data.Some? && body.data.value.PageBody?) ==> r == body
  {
    match body.data
    case Some(PageBody(p)) => ApiBody(body.status, body.message, Some(MapBody(ToCustomMap(p, a))))
    case _ => body
  }

  /** `beforeBodyWrite`. */
  function BeforeBodyWrite(body: Option<Body>, m: MethodParameter): (r: Option<Body>)
    ensures m.annotation.None? ==> r == body
    ensures body.Some? && !body.value.PageBody? && !body.value.ApiBody? ==> r == body
    ensures body.None? ==> r == None
    ensures m.annotation.Some? && body.Some? && body.value.PageBody? ==>
              r == Some(MapBody(ToCustomMap(body.value.page, m.annotation.value)))
    ensures m.annotation.Some? && body.Some? && body.value.ApiBody? ==>
              r == Some(HandleApiResponse(body.value, m.annotation.value))
  {
    match m.annotation
    case None => body
    case Some(a) =>
      match body
      case Some(PageBody(p)) => Some(MapBody(ToCustomMap(p, a)))
      case Some(ApiBody(_, _, _)) => Some(HandleApiResponse(body.value, a))
      case _ => body
  }

  /** An API response keeps its envelope: status and message survive, only
      page data is replaced, and any other data is left as it was. */
  lemma ApiResponseKeepsEnvelope(body: Option<Body>, m: MethodParameter)
    requires body.Some? && body.value.ApiBody?
    ensures var r := BeforeBodyWrite(body, m);
            && r.Some? && r.value.ApiBody?
            && r.value.status == body.value.status && r.value.message == body.value.message
    ensures !(body.value.data.Some? && body.value.data.value.PageBody?) ==> BeforeBodyWrite(body, m) == body
  {
  }

  /** `supports` decides whether the advice does anything: without the
      annotation every body passes through, and with it a bare page never does. */
  lemma SupportsGatesRewrite(body: Option<Body>, m: MethodParameter)
    ensures !Supports(m) ==> BeforeBodyWrite(body, m) == body
    ensures Supports(m) && body.Some? && body.value.PageBody? ==> BeforeBodyWrite(body, m) != body
  {
  }

  /** Rewriting is done once: a body the advice already rewrote, or one it
      left alone, comes back unchanged from a second pass. */
  lemma BeforeBodyWriteSettles(body: Option<Body>, m: MethodParameter)
    ensures BeforeBodyWrite(BeforeBodyWrite(body, m), m) == BeforeBodyWrite(body, m)
  {
    var once := BeforeBodyWrite(body, m);
    if m.annotation.Some? && body.Some? {
      if body.value.PageBody? {
        assert once.value.MapBody?;
      } else if body.value.ApiBody? {
        ApiResponseKeepsEnvelope(body, m);
        var d := once.value.data;
        assert !(d.Some? && d.value.PageBody?);
        ApiResponseKeepsEnvelope(once, m);
      }
    }
  }
}

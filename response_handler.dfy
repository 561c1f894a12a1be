/**
 * `ResponseHandler.handle` and `handleHTML`: how the value a request handler
 * resolves to (or the exception it throws) becomes the HTTP reply.
 * `res.status(...).send(...)` is the output; here it is the returned HttpReply.
 */
module ResponseHandler {
  import opened Wrappers
  import opened Responses

  /** What awaiting the handler gives: an exception, or a value, possibly `undefined`. */
  datatype Resolution<D> = Threw | Resolved(value: Option<ApiResponse<D>>)

  /** The JSON body sent back. */
  datatype Body<D> =
    | Envelope(success: bool, code: Option<string>, message: Message, data: Option<D>)
      /** `{success: false, message: 'Internal Server Error'}` */
    | ServerErrorBody(text: string)

  datatype HttpReply<D> = HttpReply(status: int, body: Body<D>)

  const ServerErrorText := "Internal Server Error"

  /**
   * A resolved response object is sent with its own status (200 when that is
   * missing or 0), with `success` defaulting to true and code, message and
   * data copied. A throw, or an `undefined` result (destructuring it throws),
   * gives 500 with the fixed error body.
   */
  function Handle<D>(r: Resolution<D>): (reply: HttpReply<D>)
    ensures (r.Threw? || r.value.None?) <==> reply == HttpReply(500, ServerErrorBody(ServerErrorText))
  {
    match r
    case Threw => HttpReply(500, ServerErrorBody(ServerErrorText))
    case Resolved(None) => HttpReply(500, ServerErrorBody(ServerErrorText))
    case Resolved(Some(a)) =>
      var status := if a.status.None? || a.status == Some(0) then 200 else a.status.value;
      HttpReply(status, Envelope(a.success.GetOr(true), a.code, a.message, a.data))
  }

  /** Everything the handler put in the object reaches the body unchanged. */
  lemma FieldsCopied<D>(a: ApiResponse<D>)
    ensures Handle(Resolved(Some(a))).body.Envelope?
    ensures Handle(Resolved(Some(a))).body.code == a.code
    ensures Handle(Resolved(Some(a))).body.message == a.message
    ensures Handle(Resolved(Some(a))).body.data == a.data
    ensures Handle(Resolved(Some(a))).body.success == (a.success != Some(false))
  {
  }

  /** The status is the object's own unless it is missing or 0, in which case it is 200. */
  lemma StatusDefaultsTo200<D>(a: ApiResponse<D>)
    ensures Handle(Resolved(Some(a))).status == if a.status.Some? && a.status.value != 0 then a.status.value else 200
  {
  }

  /** A reply object is answered with its class's status and code. */
  lemma ReplyObjectAnswered<D>(r: Reply<D>, codes: Codes)
    ensures var h := Handle(Resolved(Some(AsApiResponse(r, codes))));
      && h.body.Envelope?
      && h.body.message == r.message
      && (r.Success? ==> h.body.success && h.body.data == r.data
                         && h.status == (if codes.standardSuccess == 0 then 200 else codes.standardSuccess))
      && (r.Failure? ==> !h.body.success && h.body.code == Some(codes.code(r.kind))
                         && h.status == (if codes.status(r.kind) == 0 then 200 else codes.status(r.kind)))
  {
  }

  /** What awaiting a service gives: its reply object as a record, or `undefined`. */
  function Resolve<D>(r: Option<Reply<D>>, codes: Codes): (res: Resolution<D>)
    ensures res.Resolved?
    ensures res.value.None? <==> r.None?
  {
    if r.None? then Resolved(None) else Resolved(Some(AsApiResponse(r.value, codes)))
  }

  /**
   * A service that returns no reply object (it fell off the end of a `catch`,
   * or its normal path returns nothing) is answered with 500; a reply object
   * only when its class's status is 500.
   */
  lemma UndefinedIsServerError<D>(r: Option<Reply<D>>, codes: Codes)
    ensures Handle(Resolve(r, codes)).status == 500
        <==> r.None? || AsApiResponse(r.value, codes).status == Some(500)
    ensures r.None? ==> Handle(Resolve(r, codes)) == HttpReply(500, ServerErrorBody(ServerErrorText))
  {
  }

  // ---------------------------------------------------------------- HTML

  datatype HtmlResolution<P> = HtmlThrew | HtmlResolved(payload: P)

  /** The HTML body: whatever the handler returned, or the not-found page template. */
  datatype HtmlBody<P> = Sent(payload: P) | NotFoundPage

  datatype HtmlReply<P> = HtmlReply(status: int, contentType: string, body: HtmlBody<P>)

  const HtmlContentType := "text/html; charset=utf-8"

  /**
   * Whatever the handler resolves to, an error reply object included, is sent
   * as it is with 200; only a throw gives 404 with the not-found page. Both
   * carry the HTML content type.
   */
  function HandleHtml<P>(r: HtmlResolution<P>): (reply: HtmlReply<P>)
    ensures reply.contentType == HtmlContentType
    ensures reply.status == 200 <==> r.HtmlResolved?
    ensures reply.status == 404 <==> r.HtmlThrew?
    ensures r.HtmlResolved? ==> reply.body == Sent(r.payload)
    ensures r.HtmlThrew? ==> reply.body == NotFoundPage
  {
    match r
    case HtmlThrew => HtmlReply(404, HtmlContentType, NotFoundPage)
    case HtmlResolved(p) => HtmlReply(200, HtmlContentType, Sent(p))
  }

  /** An error reply object returned to the HTML handler still goes out as a 200 page. */
  lemma HtmlSendsErrorObjectsWith200(e: Reply<string>)
    requires e.Failure?
    ensures HandleHtml(HtmlResolved(e)) == HtmlReply(200, HtmlContentType, Sent(e))
  {
  }
}

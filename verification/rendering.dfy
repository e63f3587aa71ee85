/**
 Building and rendering the response document: the document an endpoint
 starts from, the status handed to the framework, the body (empty exactly
 when the document's status is the integer 204), and the rendering of a list
 of errors.
 */
module Rendering {
  import opened Wrappers
  import opened RubyText
  import opened JsonApi

  /** What `render_results` returns: the empty string, or the document's contents. */
  datatype Body = EmptyBody | Contents(doc: Document)

  /** A rendered response: the value handed to the framework's `status`, and the body. */
  datatype Rendered = Rendered(status: Value, body: Body)

  /** The fresh document `render_errors` fills, and what rendering it produced. */
  datatype ErrorsRendering = ErrorsRendering(document: Document, rendered: Rendered)

  // ---------------------------------------------------------------------
  // The response document
  // ---------------------------------------------------------------------

  /**
   `base_meta`, given what the instance variable `@json_request` holds (`None`
   when it was never assigned): a `warnings` entry exactly when there is a
   request with warnings.
   */
  function BaseMeta(jsonRequest: Option<Request>): (m: map<string, seq<string>>)
    ensures m.Keys <= {"warnings"}
    ensures "warnings" in m <==> jsonRequest.Some? && |jsonRequest.value.warnings| > 0
    ensures "warnings" in m ==> m["warnings"] == jsonRequest.value.warnings
  {
    match jsonRequest
    case None => map[]
    case Some(req) => if |req.warnings| > 0 then map["warnings" := req.warnings] else map[]
  }

  /**
   What `@json_request` holds while a response is built. Nothing in the library
   assigns it: the parsed request is kept in `@jsonapi_request`.
   */
  const JsonRequestIvar: Option<Request> := None

  /** `base_response_links`. */
  const BaseResponseLinks: map<string, string> := map[]

  /** `create_response_document`: no results yet, the base meta and the base response links. */
  function CreateResponseDocument(): (doc: Document)
    ensures doc.results == []
  {
    Document(BaseMeta(JsonRequestIvar), BaseResponseLinks, [])
  }

  /**
   Every response document starts without meta and without links: the request's
   warnings never reach it, because the request is not where `base_meta` looks.
   */
  lemma ResponseDocumentBare(req: Request)
    ensures CreateResponseDocument().baseMeta == map[]
    ensures CreateResponseDocument().baseLinks == map[]
    ensures |req.warnings| > 0 ==> "warnings" in BaseMeta(Some(req)) && "warnings" !in CreateResponseDocument().baseMeta
  {
  }

  // ---------------------------------------------------------------------
  // Base URL
  // ---------------------------------------------------------------------

  /** `base_url`: the scheme (`https` under SSL, `http` otherwise), "://", and the host with its port. */
  function BaseUrl(ssl: bool, hostWithPort: string): (url: string)
    ensures ssl ==> |url| == 8 + |hostWithPort| && url[..8] == "https://" && url[8..] == hostWithPort
    ensures !ssl ==> |url| == 7 + |hostWithPort| && url[..7] == "http://" && url[7..] == hostWithPort
  {
    "http" + (if ssl then "s" else "") + "://" + hostWithPort
  }

  /** Different requests give different base URLs: the scheme and the host can be read back. */
  lemma BaseUrlInjective(ssl1: bool, host1: string, ssl2: bool, host2: string)
    requires BaseUrl(ssl1, host1) == BaseUrl(ssl2, host2)
    ensures ssl1 == ssl2 && host1 == host2
  {
    var u := BaseUrl(ssl1, host1);
    assert u[4] == (if ssl1 then 's' else ':');
    assert u[4] == (if ssl2 then 's' else ':');
  }

  // ---------------------------------------------------------------------
  // Status and body
  // ---------------------------------------------------------------------

  /** `response_status`: a String status is converted with `to_i`; any other value is passed on unchanged. */
  function ResponseStatus(gem: Gem, doc: Document): (v: Value)
    ensures !v.Str?
    ensures !gem.status(doc).Str? ==> v == gem.status(doc)
    ensures gem.status(doc).Str? ==> v.Int?
  {
    match gem.status(doc)
    case Str(s) => Int(ToI(s))
    case other => other
  }

  /** A status written as a decimal integer reaches the framework as that integer. */
  lemma ResponseStatusOfDecimal(gem: Gem, doc: Document, n: int)
    requires gem.status(doc) == Str(IntToString(n))
    ensures ResponseStatus(gem, doc) == Int(n)
  {
    assert IntToString(n) + "" == IntToString(n);
    ToIOfIntToString(n, "");
  }

  /**
   `render_results`: sets the status, and returns the empty body exactly when the
   document's status is the integer 204, the document's contents otherwise.
   */
  function RenderResults(gem: Gem, doc: Document): (r: Rendered)
    ensures r.status == ResponseStatus(gem, doc)
    ensures r.body.EmptyBody? <==> gem.status(doc) == Int(204)
    ensures r.body.Contents? ==> r.body.doc == doc
  {
    Rendered(ResponseStatus(gem, doc), if gem.status(doc) == Int(204) then EmptyBody else Contents(doc))
  }

  /**
   The status is converted before it is set, but the 204 test looks at the
   unconverted value: a document whose status is the String "204" sets 204 and
   still renders its contents.
   */
  lemma StringNoContentKeepsBody(gem: Gem, doc: Document)
    requires gem.status(doc) == Str("204")
    ensures RenderResults(gem, doc) == Rendered(Int(204), Contents(doc))
  {
    assert IntToString(204) == "204";
    ResponseStatusOfDecimal(gem, doc, 204);
  }

  // ---------------------------------------------------------------------
  // Rendering errors
  // ---------------------------------------------------------------------

  /**
   `render_errors`: a fresh document (whatever was built before is dropped) holding
   one errors result, whose status is the first error's, then `render_results`.
   An empty list has no first error, and asking nil for its status raises.
   */
  function RenderErrors(gem: Gem, errors: seq<Error>): (r: Result<ErrorsRendering, Exception>)
    ensures r.Failure? <==> |errors| == 0
    ensures r.Failure? ==> r.error == NoMethodError("status")
    ensures r.Success? ==>
      && r.value.document.results == [ErrorsResult(errors[0].status, errors)]
      && r.value.document.baseMeta == map[]
      && r.value.document.baseLinks == map[]
      && r.value.rendered == RenderResults(gem, r.value.document)
  {
    if |errors| == 0 then Failure(NoMethodError("status"))
    else
      var doc := AddResult(CreateResponseDocument(), ErrorsResult(errors[0].status, errors));
      Success(ErrorsRendering(doc, RenderResults(gem, doc)))
  }
}

/**
 The renderer used from a framework rescue handler: it renders a single error
 and wraps the result in a Rack response whose status is the last value
 handed to `status`, normalised to an integer.
 */
module ErrorRenderer {
  import opened RubyText
  import opened JsonApi
  import opened Rendering

  /** A Rack response: body parts, status, headers. */
  datatype RackResponse = RackResponse(body: seq<Body>, status: Value, headers: map<string, string>)

  /**
   The renderer's `status`: a String becomes its `to_i`, a Symbol becomes its
   code under `symbolCode` (Rack's symbol-to-status table), anything else is kept.
   */
  function NormaliseStatus(v: Value, symbolCode: string -> int): (r: Value)
    ensures r.Int? || r.Nil?
    ensures r.Nil? <==> v.Nil?
    ensures v.Int? ==> r == v
    ensures v.Sym? ==> r == Int(symbolCode(v.name))
  {
    match v
    case Str(s) => Int(ToI(s))
    case Sym(name) => Int(symbolCode(name))
    case other => other
  }

  /** Normalising twice is normalising once. */
  lemma NormaliseStatusIdempotent(v: Value, symbolCode: string -> int)
    ensures NormaliseStatus(NormaliseStatus(v, symbolCode), symbolCode) == NormaliseStatus(v, symbolCode)
  {
  }

  /** A String written as a decimal integer normalises to that integer. */
  lemma NormaliseDecimal(n: int, symbolCode: string -> int)
    ensures NormaliseStatus(Str(IntToString(n)), symbolCode) == Int(n)
  {
    assert IntToString(n) + "" == IntToString(n);
    ToIOfIntToString(n, "");
  }

  /**
   `response_status` converts a String before it reaches the renderer's `status`,
   which would have converted it the same way: the renderer's status depends
   only on the document's.
   */
  lemma NormaliseResponseStatus(gem: Gem, doc: Document, symbolCode: string -> int)
    ensures NormaliseStatus(ResponseStatus(gem, doc), symbolCode) == NormaliseStatus(gem.status(doc), symbolCode)
  {
  }

  /**
   `render`: renders the one-element list `[error]`, and answers with the
   rendered body, the normalised status and the JSON:API content type.
   */
  function Render(gem: Gem, symbolCode: string -> int, error: Error): (resp: RackResponse)
    ensures resp.headers == map["Content-Type" := MediaType]
    ensures RenderErrors(gem, [error]).Success?
    ensures var e := RenderErrors(gem, [error]).value;
            && e.document.results == [ErrorsResult(error.status, [error])]
            && resp.body == [e.rendered.body]
            && resp.status == NormaliseStatus(gem.status(e.document), symbolCode)
  {
    var e := RenderErrors(gem, [error]).value;
    NormaliseResponseStatus(gem, e.document, symbolCode);
    RackResponse([e.rendered.body], NormaliseStatus(e.rendered.status, symbolCode), map["Content-Type" := MediaType])
  }

  /** The status of a rendered error response is an integer, or nil when the document has none. */
  lemma RenderStatusNormalised(gem: Gem, symbolCode: string -> int, error: Error)
    ensures var resp := Render(gem, symbolCode, error);
            && (resp.status.Int? || resp.status.Nil?)
            && NormaliseStatus(resp.status, symbolCode) == resp.status
  {
    var resp := Render(gem, symbolCode, error);
    var e := RenderErrors(gem, [error]).value;
    NormaliseStatusIdempotent(gem.status(e.document), symbolCode);
  }
}

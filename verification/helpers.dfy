/**
 What an endpoint does with a request: build the parser's parameters, parse,
 run the operations (inside a transaction when the request asks for one,
 rolling back when the document holds errors), turn a caught exception into
 an errors result, and render.
 */
module Helpers {
  import opened Wrappers
  import opened JsonApi
  import opened Rendering

  // ---------------------------------------------------------------------
  // Parameters
  // ---------------------------------------------------------------------

  /** `parser_params`: the request's parameters with the endpoint's controller name. */
  function ParserParams(params: Params, controllerName: string): (p: Params)
    ensures p.Keys == params.Keys + {"controller"}
    ensures p["controller"] == Text(controllerName)
    ensures forall k :: k in params && k != "controller" ==> p[k] == params[k]
  {
    params["controller" := Text(controllerName)]
  }

  /**
   The parameters `json_request_for` hands to the parser: the parser parameters,
   overridden by the route's `options`, overridden by the action.
   */
  function ActionParameters(params: Params, controllerName: string, action: Action, options: Params): (p: Params)
    ensures p.Keys == params.Keys + options.Keys + {"controller", "action"}
    ensures p["action"] == Text(ActionName(action))
    ensures p["controller"] == if "controller" in options then options["controller"] else Text(controllerName)
    ensures forall k :: k in options && k != "action" ==> p[k] == options[k]
    ensures forall k :: k in params && k !in options && k != "controller" && k != "action" ==> p[k] == params[k]
  {
    ParserParams(params, controllerName) + options + map["action" := Text(ActionName(action))]
  }

  // ---------------------------------------------------------------------
  // Running the operations
  // ---------------------------------------------------------------------

  /** How the block given to `process_operations` ended: normally, or by raising. */
  datatype BlockOutcome =
    | Finished(doc: Document, store: Store)
    | Raised(exception: Exception, doc: Document, store: Store)

  /**
   `jsonapi_request.each` with `process_operation`: the operations in order, each
   result appended to the document; an operation that raises ends the run with
   the results so far. An errors result does not stop the run.
   */
  function RunOperations(gem: Gem, ops: seq<Operation>, doc: Document, store: Store): (r: BlockOutcome)
    ensures r.doc.baseMeta == doc.baseMeta && r.doc.baseLinks == doc.baseLinks
    ensures |doc.results| <= |r.doc.results| <= |doc.results| + |ops|
    ensures r.doc.results[..|doc.results|] == doc.results
    ensures r.Finished? ==> |r.doc.results| == |doc.results| + |ops|
    ensures r.Raised? ==> |ops| > 0 && |r.doc.results| < |doc.results| + |ops|
    decreases |ops|
  {
    if |ops| == 0 then Finished(doc, store)
    else
      match gem.process(ops[0], store)
      case Returned(result, s) =>
        var r := RunOperations(gem, ops[1..], AddResult(doc, result), s);
        assert r.doc.results[..|doc.results|] == (doc.results + [result])[..|doc.results|];
        r
      case Threw(e, s) => Raised(e, doc, s)
  }

  /** Running two lists of operations back to back is running their concatenation. */
  lemma {:induction false} RunOperationsConcat(gem: Gem, ops1: seq<Operation>, ops2: seq<Operation>, doc: Document, store: Store)
    ensures RunOperations(gem, ops1 + ops2, doc, store)
         == match RunOperations(gem, ops1, doc, store)
            case Finished(d, s) => RunOperations(gem, ops2, d, s)
            case Raised(e, d, s) => Raised(e, d, s)
    decreases |ops1|
  {
    if |ops1| == 0 {
      assert ops1 + ops2 == ops2;
    } else {
      assert (ops1 + ops2)[0] == ops1[0];
      assert (ops1 + ops2)[1..] == ops1[1..] + ops2;
      match gem.process(ops1[0], store)
      case Returned(result, s) =>
        RunOperationsConcat(gem, ops1[1..], ops2, AddResult(doc, result), s);
      case Threw(e, s) =>
    }
  }

  /**
   The operation after a finished prefix is processed against the store the
   prefix left, and its result is appended right after the prefix's results.
   */
  lemma RunOperationsStep(gem: Gem, ops: seq<Operation>, k: nat, doc: Document, store: Store)
    requires k < |ops|
    requires RunOperations(gem, ops[..k], doc, store).Finished?
    ensures var before := RunOperations(gem, ops[..k], doc, store);
            var run := RunOperations(gem, ops, doc, store);
            match gem.process(ops[k], before.store)
            case Returned(result, _) => |run.doc.results| > |doc.results| + k && run.doc.results[|doc.results| + k] == result
            case Threw(e, s) => run == Raised(e, before.doc, s)
  {
    var before := RunOperations(gem, ops[..k], doc, store);
    assert ops == ops[..k] + ops[k..];
    RunOperationsConcat(gem, ops[..k], ops[k..], doc, store);
    assert ops[k..][0] == ops[k];
    match gem.process(ops[k], before.store)
    case Returned(result, s) =>
      var after := RunOperations(gem, ops[k + 1..], AddResult(before.doc, result), s);
      assert ops[k..][1..] == ops[k + 1..];
      assert after.doc.results[..|before.doc.results| + 1] == before.doc.results + [result];
      assert after.doc.results[|doc.results| + k] == (before.doc.results + [result])[|doc.results| + k];
    case Threw(e, s) =>
  }

  /** The loop `jsonapi_request.each` runs, operation by operation. */
  method RunOperationsLoop(gem: Gem, ops: seq<Operation>, doc0: Document, store0: Store) returns (r: BlockOutcome)
    ensures r == RunOperations(gem, ops, doc0, store0)
    ensures r.Finished? ==> |r.doc.results| == |doc0.results| + |ops|
  {
    var doc, store, i := doc0, store0, 0;
    while i < |ops|
      invariant 0 <= i <= |ops|
      invariant RunOperations(gem, ops[i..], doc, store) == RunOperations(gem, ops, doc0, store0)
      decreases |ops| - i
    {
      assert ops[i..][0] == ops[i];
      match gem.process(ops[i], store)
      case Returned(result, s) =>
        assert ops[i..][1..] == ops[i + 1..];
        doc, store, i := AddResult(doc, result), s, i + 1;
      case Threw(e, s) =>
        return Raised(e, doc, s);
    }
    assert ops[i..] == [];
    r := Finished(doc, store);
  }

  /** The block of `execute_request`: run the operations, then signal a rollback if the document has errors. */
  function ExecuteBlock(gem: Gem, req: Request, doc: Document, store: Store): (r: BlockOutcome)
    ensures var run := RunOperations(gem, req.operations, doc, store);
            && r.doc == run.doc
            && r.store == run.store
            && (r.Raised? <==> run.Raised? || gem.hasErrors(run.doc))
            && (run.Raised? ==> r.exception == run.exception)
            && (run.Finished? && gem.hasErrors(run.doc) ==> r.exception == Rollback)
  {
    match RunOperations(gem, req.operations, doc, store)
    case Finished(d, s) => if gem.hasErrors(d) then Raised(Rollback, d, s) else Finished(d, s)
    case Raised(e, d, s) => Raised(e, d, s)
  }

  /**
   `process_operations`. In a transaction every exception rolls the store back
   to `store0`: a rollback signal is then swallowed, any other exception goes
   on. Without a transaction the store keeps what the block did and only the
   rollback signal is swallowed.
   */
  function ProcessOperations(transactional: bool, store0: Store, block: BlockOutcome): (r: BlockOutcome)
    ensures r.doc == block.doc
    ensures r.Raised? <==> block.Raised? && block.exception != Rollback
    ensures r.Raised? ==> r.exception == block.exception
    ensures transactional && block.Raised? ==> r.store == store0
    ensures !(transactional && block.Raised?) ==> r.store == block.store
  {
    match block
    case Finished(_, _) => block
    case Raised(e, d, s) =>
      var s' := if transactional then store0 else s;
      if e == Rollback then Finished(d, s') else Raised(e, d, s')
  }

  /** `execute_request`. */
  function ExecuteRequest(gem: Gem, req: Request, doc: Document, store: Store): BlockOutcome {
    ProcessOperations(req.transactional, store, ExecuteBlock(gem, req, doc, store))
  }

  /**
   A transactional request commits only a clean run: when an operation raised or
   the document ends up holding errors, the store is the one before the request;
   otherwise it is what the operations left.
   */
  lemma TransactionalAtomic(gem: Gem, req: Request, doc: Document, store: Store)
    requires req.transactional
    ensures var run := RunOperations(gem, req.operations, doc, store);
            var r := ExecuteRequest(gem, req, doc, store);
            && r.doc == run.doc
            && (run.Raised? || gem.hasErrors(run.doc) ==> r.store == store)
            && (run.Finished? && !gem.hasErrors(run.doc) ==> r == run)
            && (r.Raised? <==> run.Raised? && run.exception != Rollback)
  {
  }

  /**
   Without a transaction, the rollback signal for a document with errors is
   swallowed: the request finishes normally and keeps every change the
   operations made.
   */
  lemma NonTransactionalKeeps(gem: Gem, req: Request, doc: Document, store: Store)
    requires !req.transactional
    ensures var run := RunOperations(gem, req.operations, doc, store);
            var r := ExecuteRequest(gem, req, doc, store);
            && r.doc == run.doc
            && r.store == run.store
            && (run.Finished? ==> r.Finished?)
            && (r.Raised? <==> run.Raised? && run.exception != Rollback)
  {
  }

  // ---------------------------------------------------------------------
  // Exceptions
  // ---------------------------------------------------------------------

  /** What `handle_exceptions` makes of an exception: a list of errors, or re-raising it. */
  datatype Classified = Errors(errors: seq<Error>) | Reraise

  /**
   A JSON:API error yields its own errors, a missing parameter the
   PARAM_MISSING errors; anything else is re-raised when whitelisted and
   yields an internal server error otherwise.
   */
  function ClassifyException(gem: Gem, e: Exception): (c: Classified)
    ensures c.Reraise? <==> !e.JsonApiException? && !e.ParameterMissing? && gem.whitelisted(e)
    ensures e.JsonApiException? ==> c == Errors(e.errors)
    ensures e.ParameterMissing? ==> c.errors == ParameterMissingErrors(gem, e.param)
    ensures c.Errors? && !e.JsonApiException? ==> |c.errors| == 1
    ensures c.Errors? && !e.JsonApiException? && !e.ParameterMissing? ==> c.errors[0].code == InternalServerError
  {
    match e
    case JsonApiException(errors) => Errors(errors)
    case ParameterMissing(param) => Errors(ParameterMissingErrors(gem, param))
    case _ => if gem.whitelisted(e) then Reraise else Errors(InternalServerErrors(gem))
  }

  /**
   `handle_exceptions`: appends one errors result, with the first error's
   status, to the response document. Re-raising, an empty error list (no first
   error) and a missing document (nil receives `add_result`) make it raise.
   */
  function HandleExceptions(gem: Gem, e: Exception, doc: Option<Document>): (r: Result<Document, Exception>)
    ensures r.Success? <==> doc.Some? && ClassifyException(gem, e).Errors? && |ClassifyException(gem, e).errors| > 0
    ensures r.Success? ==>
      var errs := ClassifyException(gem, e).errors;
      r.value == AddResult(doc.value, ErrorsResult(errs[0].status, errs))
    ensures r.Failure? ==> (r.error == e && ClassifyException(gem, e).Reraise?) || r.error.NoMethodError?
  {
    match ClassifyException(gem, e)
    case Reraise => Failure(e)
    case Errors(errs) =>
      if |errs| == 0 then Failure(NoMethodError("status"))
      else if doc.None? then Failure(NoMethodError("add_result"))
      else Success(AddResult(doc.value, ErrorsResult(errs[0].status, errs)))
  }

  // ---------------------------------------------------------------------
  // process_request
  // ---------------------------------------------------------------------

  /** The end of a request: a rendered response, or an exception leaving the endpoint. */
  datatype Outcome =
    | Responded(rendered: Rendered, document: Document, store: Store)
    | Escaped(exception: Exception, store: Store)

  /**
   `process_request`: parse, set up the document, execute; a caught exception is
   handled against the document as it stands (there is none yet when parsing
   raised); then render. An exception raised while handling leaves the endpoint.
   */
  function ProcessRequest(gem: Gem, params: Params, controllerName: string, action: Action, options: Params, store: Store)
    : (r: Outcome)
    ensures gem.parse(ActionParameters(params, controllerName, action, options)).Failure? ==> r.Escaped? && r.store == store
    ensures r.Responded? ==> r.rendered == RenderResults(gem, r.document)
    ensures r.Responded? ==> r.document.baseMeta == map[] && r.document.baseLinks == map[]
    ensures r.Escaped? ==>
      || r.exception.NoMethodError?
      || (gem.whitelisted(r.exception) && !r.exception.JsonApiException? && !r.exception.ParameterMissing?)
  {
    match gem.parse(ActionParameters(params, controllerName, action, options))
    case Failure(e) =>
      Escaped(HandleExceptions(gem, e, None).error, store)
    case Success(req) =>
      match ExecuteRequest(gem, req, CreateResponseDocument(), store)
      case Finished(d, s) => Responded(RenderResults(gem, d), d, s)
      case Raised(e, d, s) =>
        match HandleExceptions(gem, e, Some(d))
        case Success(d2) => Responded(RenderResults(gem, d2), d2, s)
        case Failure(e2) => Escaped(e2, s)
  }

  /**
   Once the request is parsed, rendering happens whether or not an exception
   was caught, unless handling it raises; a caught exception's errors end the
   document, under the first error's status, after the results so far.
   */
  lemma ProcessRequestRenders(gem: Gem, params: Params, controllerName: string, action: Action, options: Params, store: Store)
    requires gem.parse(ActionParameters(params, controllerName, action, options)).Success?
    ensures var req := gem.parse(ActionParameters(params, controllerName, action, options)).value;
            var run := ExecuteRequest(gem, req, CreateResponseDocument(), store);
            var r := ProcessRequest(gem, params, controllerName, action, options, store);
            && r.store == run.store
            && (run.Finished? ==> r.Responded? && r.document == run.doc)
            && (run.Raised? ==>
                  var c := ClassifyException(gem, run.exception);
                  (r.Responded? <==> c.Errors? && |c.errors| > 0)
                  && (r.Responded? ==> r.document.results == run.doc.results + [ErrorsResult(c.errors[0].status, c.errors)]))
  {
  }

  /**
   A transactional request leaves the store untouched unless it finishes
   cleanly: whether an operation raised, the document held errors, or an
   exception left the endpoint.
   */
  lemma ProcessRequestAtomic(gem: Gem, params: Params, controllerName: string, action: Action, options: Params, store: Store)
    requires var parsed := gem.parse(ActionParameters(params, controllerName, action, options));
             parsed.Success? && parsed.value.transactional
    ensures var req := gem.parse(ActionParameters(params, controllerName, action, options)).value;
            var run := RunOperations(gem, req.operations, CreateResponseDocument(), store);
            var r := ProcessRequest(gem, params, controllerName, action, options, store);
            (run.Raised? || gem.hasErrors(run.doc) || r.Escaped?) ==> r.store == store
  {
    var req := gem.parse(ActionParameters(params, controllerName, action, options)).value;
    TransactionalAtomic(gem, req, CreateResponseDocument(), store);
  }

  /** The request's warnings never reach the response's meta. */
  lemma WarningsNotRendered(gem: Gem, params: Params, controllerName: string, action: Action, options: Params, store: Store)
    requires var parsed := gem.parse(ActionParameters(params, controllerName, action, options));
             parsed.Success? && |parsed.value.warnings| > 0
    ensures var r := ProcessRequest(gem, params, controllerName, action, options, store);
            r.Responded? ==> "warnings" !in r.document.baseMeta
  {
  }

  // ---------------------------------------------------------------------
  // forbidden_operation
  // ---------------------------------------------------------------------

  /** The error `forbidden_operation` renders. */
  function ForbiddenError(gem: Gem): Error {
    Error(Forbidden, Sym("forbidden"),
          gem.translate("jsonapi.errors.forbidden_operation.title"),
          Some(gem.translate("jsonapi.errors.forbidden_operation.detail")))
  }

  /** `forbidden_operation`: exactly one FORBIDDEN error with status `:forbidden`, rendered on a fresh document. */
  function ForbiddenOperation(gem: Gem): (r: ErrorsRendering)
    ensures |r.document.results| == 1
    ensures var res := r.document.results[0];
            && res.ErrorsResult?
            && res.status == Sym("forbidden")
            && |res.errors| == 1
            && res.errors[0].code == Forbidden
            && res.errors[0].status == Sym("forbidden")
    ensures r.rendered == RenderResults(gem, r.document)
  {
    RenderErrors(gem, [ForbiddenError(gem)]).value
  }
}

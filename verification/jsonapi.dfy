/**
 The interface of the jsonapi-resources gem as this library consumes it. The gem
 itself (request parsing, operation processing, serialisation, the response
 document's status rule) is not part of this model: its behaviour enters as the
 function-valued fields of `Gem`.
 */
module JsonApi {
  import opened Wrappers

  const MediaType: string := "application/vnd.api+json"

  // ---------------------------------------------------------------------
  // Resource descriptions
  // ---------------------------------------------------------------------

  datatype Cardinality = ToOne | ToMany

  /**
   A declared relationship. `targetMutable` is what the gem's own
   `relationship.resource_klass.mutable?` answers; `immutable` is the
   relationship's `immutable:` option.
   */
  datatype Relationship = Relationship(
    name: string,
    cardinality: Cardinality,
    className: string,
    targetMutable: bool,
    immutable: bool)

  /** A resource class: its Ruby class name, `_type`, `mutable?` and `_relationships`. */
  datatype ResourceClass = ResourceClass(
    name: string,
    typeName: string,
    mutable: bool,
    relationships: seq<Relationship>)

  /** The gem's registry behind `JSONAPI::Resource.resource_for(key)`. */
  type Registry = map<string, ResourceClass>

  datatype LookupError = UnregisteredResource(key: string)

  function ResourceFor(reg: Registry, key: string): (r: Result<ResourceClass, LookupError>)
    ensures r.Success? <==> key in reg
    ensures r.Success? ==> r.value == reg[key]
    ensures r.Failure? ==> r.error == UnregisteredResource(key)
  {
    if key in reg then Success(reg[key]) else Failure(UnregisteredResource(key))
  }

  // ---------------------------------------------------------------------
  // Actions and request parameters
  // ---------------------------------------------------------------------

  datatype BaseAction = ShowBase | UpdateBase | DestroyBase | CreateBase

  /** The actions handed to the request parser. */
  datatype Action =
    | Index | Create | Show | Update | Destroy
    | GetRelatedResources | GetRelatedResource
    | RelationshipAction(base: BaseAction)

  function BaseName(b: BaseAction): string {
    match b
    case ShowBase => "show"
    case UpdateBase => "update"
    case DestroyBase => "destroy"
    case CreateBase => "create"
  }

  /** The action string the parser sees; relationship actions are `"#{action}_relationship"`. */
  function ActionName(a: Action): string {
    match a
    case Index => "index"
    case Create => "create"
    case Show => "show"
    case Update => "update"
    case Destroy => "destroy"
    case GetRelatedResources => "get_related_resources"
    case GetRelatedResource => "get_related_resource"
    case RelationshipAction(b) => BaseName(b) + "_relationship"
  }

  /** A parameter value: the request's `params[:id]`, or text fixed when routes are declared. */
  datatype ParamValue = PathId | Text(text: string)

  type Params = map<string, ParamValue>

  // ---------------------------------------------------------------------
  // Errors, results, documents
  // ---------------------------------------------------------------------

  /** A Ruby value in a status or code position: String, Symbol, Integer or nil. */
  datatype Value = Str(s: string) | Sym(name: string) | Int(n: int) | Nil

  /** JSON:API error codes this library names, plus the numeric codes of framework errors. */
  datatype ErrorCode =
    | Forbidden
    | ParamMissing
    | InternalServerError
    | StatusCode(status: int)
    | OtherCode(name: string)

  /** `JSONAPI::Error`: code, status as given to the constructor, title, and detail (nil when not given). */
  datatype Error = Error(code: ErrorCode, status: Value, title: string, detail: Option<string>)

  /** `ErrorsOperationResult` or a successful operation's result (its payload is opaque). */
  datatype OperationResult =
    | ErrorsResult(status: Value, errors: seq<Error>)
    | SuccessResult(code: Value, payload: nat)

  /** The response document: base meta and links fixed at creation, then results in order. */
  datatype Document = Document(
    baseMeta: map<string, seq<string>>,
    baseLinks: map<string, string>,
    results: seq<OperationResult>)

  function AddResult(doc: Document, result: OperationResult): (d: Document)
    ensures d.results == doc.results + [result]
    ensures d.baseMeta == doc.baseMeta && d.baseLinks == doc.baseLinks
  {
    doc.(results := doc.results + [result])
  }

  // ---------------------------------------------------------------------
  // Exceptions, operations, the collaborator
  // ---------------------------------------------------------------------

  /** The exceptions the request pipeline distinguishes. */
  datatype Exception =
    | JsonApiException(errors: seq<Error>)   // JSONAPI::Exceptions::Error
    | ParameterMissing(param: string)        // ActionController::ParameterMissing
    | Rollback                               // ActiveRecord::Rollback
    | NoMethodError(selector: string)        // a method called on nil
    | OtherException(className: string, message: string)

  /** The persisted state the operations act on. */
  type Store = map<nat, string>

  datatype Operation = Operation(id: nat)

  /** A parsed request: whether it runs in a transaction, its operations in order, its warnings. */
  datatype Request = Request(transactional: bool, operations: seq<Operation>, warnings: seq<string>)

  /** What `operation.process` does: return a result, or raise after touching the store. */
  datatype Step = Returned(result: OperationResult, store: Store) | Threw(exception: Exception, store: Store)

  /**
   The gem's behaviour as seen from this library:
   `parse` builds the request (`RequestParser.new`), `process` runs one operation,
   `hasErrors` and `status` are `ResponseDocument#has_errors?` and `#status`,
   `whitelisted` is `exception_class_whitelisted?`, and `translate` is `I18n.t`.
   */
  datatype Gem = Gem(
    parse: Params -> Result<Request, Exception>,
    process: (Operation, Store) -> Step,
    hasErrors: Document -> bool,
    status: Document -> Value,
    whitelisted: Exception -> bool,
    translate: string -> string)

  /** The errors `JSONAPI::Exceptions::ParameterMissing.new(param).errors` carries. */
  function ParameterMissingErrors(gem: Gem, param: string): (errs: seq<Error>)
    ensures |errs| == 1 && errs[0].code == ParamMissing
  {
    [Error(ParamMissing, Sym("bad_request"), gem.translate("jsonapi.errors.param_missing.title"), Some(param))]
  }

  /** The errors `JSONAPI::Exceptions::InternalServerError.new(e).errors` carries. */
  function InternalServerErrors(gem: Gem): (errs: seq<Error>)
    ensures |errs| == 1 && errs[0].code == InternalServerError
  {
    [Error(InternalServerError, Sym("internal_server_error"),
           gem.translate("jsonapi.errors.internal_server_error.title"),
           Some(gem.translate("jsonapi.errors.internal_server_error.detail")))]
  }
}

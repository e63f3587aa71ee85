# grape-jr in Dafny

A model of grape-jr, the glue that turns a Grape API class into a JSON:API
endpoint backed by the jsonapi-resources gem. The model covers four parts:

- **Names.** How an API class name such as `Api::V1::People` gives the
  controller name (`Api/V1/People`), the resource module name (`Api/V1`), the
  related-controller name and the lookup key of a related resource.
- **Route table.** The table an API class declares when it is subclassed:
  - `GET`/`POST` on the collection;
  - `GET`/`PATCH`/`DELETE` on the member;
  - for every relationship, a related route and a linkage route
    (`/relationships/<name>`), whose mutating verbs are bound to the
    `update`/`destroy`/`create` relationship actions or to the forbidden
    handler.
- **Serving a request.** How a request is dispatched through that table:
  - the first binding for the verb and path wins;
  - a path bound only to other verbs is taken to raise Grape's 405 error,
    which `handle_errors` renders (an assumption about Grape, see below).
- **The request pipeline.** What `process_request` does:
  - build the parser parameters;
  - run the operations, inside a transaction or not;
  - turn a caught exception into an errors result;
  - render the response document with its status, leaving the body empty for 204.

The jsonapi-resources gem is a parameter. `JsonApi.Gem` is a record of
functions:
- the request parser;
- one operation's processing against an abstract store;
- the document's `has_errors?` and `status`;
- the exception-class whitelist;
- the I18n translation.

Rails' `underscore` and `singularize` are the fields of `RubyText.Inflector`.
Ruby's `gsub(/::/, '/')`, `split(/::/)`, `join`, `demodulize`, `dasherize`,
`String#to_i` and integer printing are modelled concretely in `RubyText`.

Parameter values are `PathId` or `Text`:
- `PathId` stands for `params[:id]`, the id segment of the matched path;
- `Text` is a literal string.

A route is a `Routes.Binding` of a verb, a path of `Lit`/`IdParam` segments, and a
handler. The handler is either `Process(action, options)`, a call to
`process_request`, or the forbidden handler.

Collection `POST` and member `PATCH`/`DELETE` are bound to `create`, `update`
and `destroy` whatever the resource's mutability: `api.rb` declares them
unconditionally. Only the linkage routes of relationships consult mutability.

## Model

| member | source | states |
|---|---|---|
| RubyText.ReplaceSepOfQualified | lib/grape/jsonapi/resources.rb:7 | replacing every `::` of a well-formed qualified class name by `/` joins its segments with `/` |
| RubyText.SplitOfQualified | lib/grape/jsonapi/resources.rb:23 | Ruby's `split(/::/)` of a qualified class name gives back exactly its segments |
| RubyText.DemodulizeOfQualified | lib/grape/jsonapi/api.rb:22 | `demodulize` of a qualified class name is its last segment |
| RubyText.Dasherize | lib/grape/jsonapi/relationships.rb:36 | dasherizing keeps the length and changes exactly the underscores, each into a dash |
| RubyText.ToIOfIntToString | lib/grape/jsonapi/rendering.rb:45 | `to_i` reads back any integer written in decimal, whatever non-numeric text follows it |
| JsonApi.ParameterMissingErrors | lib/grape/jsonapi/helpers.rb:110-111 | a missing parameter becomes exactly one PARAM_MISSING error |
| JsonApi.InternalServerErrors | lib/grape/jsonapi/helpers.rb:118-124 | an unexpected exception becomes exactly one INTERNAL_SERVER_ERROR error |
| Resources.ControllerNameOfQualified | lib/grape/jsonapi/resources.rb:6-8 | the controller name is the class's segments joined by `/`, and no `::` is left in it |
| Resources.ModuleNameOfQualified | lib/grape/jsonapi/resources.rb:22-24 | the module name joins all segments but the last with `/`; it is empty for a top-level class |
| Resources.ControllerNameExtendsModuleName | lib/grape/jsonapi/resources.rb:6-24 | for a nested class the controller name is the module name, a `/`, and the class's own name |
| Resources.TopLevelNames | lib/grape/jsonapi/resources.rb:6-24 | a top-level class is its own controller name and has the empty module name |
| Resources.RelatedNamesOfQualified | lib/grape/jsonapi/resources.rb:14-34 | the related controller name and the resource name are prefixed by the module name and a `/`, so a top-level class gets a leading `/` |
| Resources.RelatedResourceKeyOfQualified | lib/grape/jsonapi/resources.rb:26-30 | the key of a related resource is the underscored module path followed by the relationship's class name |
| Routes.DispatchOf | spec/grape/jsonapi/api_spec.rb:250-271 | a request matches iff some binding has its verb and path, and then the first such binding wins; it is refused as not allowed iff the path binds only other verbs; it is unrouted iff the path binds nothing |
| Routes.UniqueBindingsMatchOnce | lib/grape/jsonapi/api.rb:16-40 | in a table without two bindings for one verb and path, at most one handler answers any request |
| Relationships.OwnerIdKey | lib/grape/jsonapi/relationships.rb:123 | the owner id parameter's name ends in `_id` |
| Relationships.SharedResourceParams | lib/grape/jsonapi/relationships.rb:121-126 | the shared parameters are exactly the owner id, bound to the path's id, and the relationship's name |
| Relationships.RelatedParams | lib/grape/jsonapi/relationships.rb:61-72 | related parameters add the related controller and, as `source`, the owner's controller to the shared ones |
| Relationships.RelationshipParams | lib/grape/jsonapi/relationships.rb:93-99 | linkage parameters add the owner's controller to the shared ones |
| Relationships.DeclareRelationshipResource | lib/grape/jsonapi/relationships.rb:47-59 | every route a relationship resource declares sits on that relationship's linkage path |
| Relationships.RelatedRoutes | lib/grape/jsonapi/relationships.rb:21-45 | one route per relationship, in declaration order: a GET on the member path extended by the dasherized name, answered by `get_related_resources` for a to-many and `get_related_resource` for a to-one, with the related parameters |
| Relationships.AddedRoutes | lib/grape/jsonapi/relationships.rb:18-31 | nothing is bound exactly when the resource has no relationships; every relationship gets its related GET (with the cardinality's action) and its linkage GET (`show_relationship`); and every binding lies on a related or linkage path of one of the relationships |
| Relationships.RelationshipRoutesPaths | lib/grape/jsonapi/relationships.rb:26-30 | every route under `relationships` is the linkage path of some declared relationship |
| Relationships.PathsInjective | lib/grape/jsonapi/relationships.rb:36-48 | two relationships share a related path, or a linkage path, only when their dasherized names agree |
| Relationships.MutatorHandlers | lib/grape/jsonapi/relationships.rb:80-85 | the mutators answer PATCH with `update` and DELETE with `destroy`, answer POST with `create` only for a to-many relationship, and leave GET alone |
| Relationships.ForbiddenHandlers | lib/grape/jsonapi/relationships.rb:87-91 | forbidding mutation answers PATCH, DELETE and POST with the forbidden handler, and leaves GET alone |
| Relationships.RelationshipResourceHandlers | lib/grape/jsonapi/relationships.rb:47-91 | on its linkage path a relationship answers GET with `show`; PATCH/DELETE with `update`/`destroy` when mutable, else forbidden; POST with `create` for a mutable to-many, forbidden when immutable, and nothing for a mutable to-one |
| Relationships.RelationshipResourceUnique | lib/grape/jsonapi/relationships.rb:80-91 | a relationship resource never binds one verb twice |
| Relationships.RelationshipRoutesAt | lib/grape/jsonapi/relationships.rb:26-30 | with distinct dasherized names, each linkage path of the whole relationships block answers exactly as its own relationship does |
| Relationships.RelatedRoutesAt | lib/grape/jsonapi/relationships.rb:35-45 | with distinct dasherized names, a related path answers GET with the related action for its cardinality and nothing else |
| Relationships.RelatedRoutesUnique | lib/grape/jsonapi/relationships.rb:21-24 | with distinct dasherized names, no two related routes coincide |
| Relationships.RelationshipRoutesUnique | lib/grape/jsonapi/relationships.rb:26-30 | with distinct dasherized names, no two linkage routes coincide |
| Relationships.AddedRoutesUnique | lib/grape/jsonapi/relationships.rb:21-30 | with distinct dasherized names, the related and linkage routes together never bind one verb and path twice |
| Api.IdRoute | lib/grape/jsonapi/api.rb:32-40 | the member block binds GET to `show`, PATCH to `update` and DELETE to `destroy` on the `:id` path, puts every other route strictly below it, and routes the declared relationships by name, in order |
| Api.JsonApiResource | lib/grape/jsonapi/api.rb:16-30 | a resource declares at least five routes and routes exactly its relationships |
| Api.ResourceRoutesHead | lib/grape/jsonapi/api.rb:22-36 | the table opens with the collection's GET `index` and POST `create`, then the member's GET `show`, PATCH `update` and DELETE `destroy` |
| Api.ResolveRelationships | lib/grape/jsonapi/relationships.rb:107-108 | relationship targets resolve iff every target is registered, giving each its registered class; otherwise the first unregistered target is reported |
| Api.Declare | lib/grape/jsonapi/resources.rb:10-30 | declaring an API succeeds iff its controller name and all its relationship targets are registered; an unregistered controller is reported as such |
| Api.Inherited | lib/grape/jsonapi/api.rb:8-11 | subclassing adds the subclass's declaration and leaves every other API as it was, or fails with the declaration |
| Api.DefineAllDeclaresEach | lib/grape/jsonapi/api.rb:8-11 | defining several subclasses declares each one and leaves other APIs unchanged |
| Api.CollectionHandlers | lib/grape/jsonapi/api.rb:25-26 | the collection block answers GET with `index` and POST with `create` on its own path, and the member routes bind nothing there |
| Api.MemberHandlers | lib/grape/jsonapi/api.rb:33-36 | the `:id` block answers GET, PATCH and DELETE with `show`, `update` and `destroy` on the member path, and the collection routes bind nothing there |
| Api.RoutesNestedUnderMember | lib/grape/jsonapi/api.rb:38 | every relationship route extends the member path by at least one segment |
| Api.CollectionRoutesExact | lib/grape/jsonapi/api.rb:25-26 | the collection path answers GET with `index`, POST with `create`, and nothing else |
| Api.CollectionNotAllowed | spec/grape/jsonapi/api_spec.rb:250-271 | the collection binds exactly GET and POST, so PATCH and DELETE on it are refused as not allowed |
| Api.MemberRoutesExact | lib/grape/jsonapi/api.rb:33-36 | the member path answers GET, PATCH and DELETE with `show`, `update` and `destroy`, and POST with nothing |
| Api.NestedHandlers | lib/grape/jsonapi/api.rb:38 | paths longer than the member path are answered only by relationship routes |
| Api.RelatedRouteExact | lib/grape/jsonapi/relationships.rb:39-43 | in the whole table, with distinct dasherized names, a related path answers GET with the related action for its cardinality and nothing else |
| Api.RelationshipRouteExact | lib/grape/jsonapi/relationships.rb:51-57 | in the whole table, with distinct dasherized names, a linkage path answers each verb as its relationship's mutability and cardinality prescribe |
| Api.WithoutRelationships | lib/grape/jsonapi/relationships.rb:19 | a resource without relationships declares only the five collection and member routes and routes nothing |
| Api.UniqueIffDistinct | lib/grape/jsonapi/relationships.rb:21-30 | the table binds no verb and path twice exactly when the relationships' dasherized names are distinct |
| Api.DuplicateNamesDuplicateRoutes | lib/grape/jsonapi/relationships.rb:36-48 | two relationships with one dasherized name make the table bind a verb and path twice |
| Api.TopSegmentOfQualified | lib/grape/jsonapi/api.rb:22 | the collection segment is the underscored last segment of the API class's name |
| Api.HandleErrors | lib/grape/jsonapi/api.rb:42-49 | a framework error renders one error whose code is the status and whose title is the message, with no detail |
| Rendering.BaseMeta | lib/grape/jsonapi/rendering.rb:57-65 | base meta has a `warnings` entry, holding the request's warnings, exactly when there is a request with warnings |
| Rendering.CreateResponseDocument | lib/grape/jsonapi/rendering.rb:30-41 | a new response document holds no results |
| Rendering.ResponseDocumentBare | lib/grape/jsonapi/rendering.rb:58 | every response document starts without meta and links, so a request's warnings never reach it |
| Rendering.BaseUrl | lib/grape/jsonapi/rendering.rb:67-69 | the base URL is `https://` under SSL and `http://` otherwise, followed by the host with its port |
| Rendering.BaseUrlInjective | lib/grape/jsonapi/rendering.rb:67-69 | the scheme and the host can be read back from the base URL |
| Rendering.ResponseStatus | lib/grape/jsonapi/rendering.rb:43-47 | the status handed on is never a String; a String becomes an integer, and anything else is passed unchanged |
| Rendering.ResponseStatusOfDecimal | lib/grape/jsonapi/rendering.rb:45 | a decimal String status reaches the framework as that integer |
| Rendering.RenderResults | lib/grape/jsonapi/rendering.rb:23-26 | the body is empty exactly when the document's status is the integer 204; otherwise it is the document's contents |
| Rendering.StringNoContentKeepsBody | lib/grape/jsonapi/rendering.rb:23-26 | a String "204" status sets 204 but still renders the contents |
| Rendering.RenderErrors | lib/grape/jsonapi/rendering.rb:11-21 | rendering errors fails iff the list is empty; otherwise a fresh document holds the one errors result, under the first error's status |
| ErrorRenderer.NormaliseStatus | lib/grape/jsonapi/error_renderer.rb:32-42 | a status becomes an integer, or stays nil exactly when it is nil; an integer is kept and a Symbol takes its Rack code |
| ErrorRenderer.NormaliseStatusIdempotent | lib/grape/jsonapi/error_renderer.rb:32-42 | normalising a status twice is normalising it once |
| ErrorRenderer.NormaliseDecimal | lib/grape/jsonapi/error_renderer.rb:35-36 | a decimal String status normalises to its integer |
| ErrorRenderer.NormaliseResponseStatus | lib/grape/jsonapi/rendering.rb:43-47 | converting the status before the renderer sees it changes nothing about the renderer's status |
| ErrorRenderer.Render | lib/grape/jsonapi/error_renderer.rb:15-22 | the renderer renders the one error, answers with its body and the normalised status, and declares the JSON:API media type |
| ErrorRenderer.RenderStatusNormalised | lib/grape/jsonapi/error_renderer.rb:15-22 | a rendered error response's status is an integer or nil and is already normalised |
| Helpers.ParserParams | lib/grape/jsonapi/helpers.rb:20-22 | parser parameters are the request parameters with the controller name set, everything else unchanged |
| Helpers.ActionParameters | lib/grape/jsonapi/helpers.rb:24-27 | the action always wins; route options override the controller and the request parameters; the remaining request parameters are kept |
| Helpers.RunOperations | lib/grape/jsonapi/helpers.rb:54-68 | running operations only appends results, one per operation that returned; running to the end appends exactly one per operation |
| Helpers.RunOperationsConcat | lib/grape/jsonapi/helpers.rb:54-68 | running two batches in sequence is running their concatenation |
| Helpers.RunOperationsStep | lib/grape/jsonapi/helpers.rb:97-100 | the k-th operation's result sits at the k-th new position of the document, or its exception stops the run with the document as it stood |
| Helpers.RunOperationsLoop | lib/grape/jsonapi/helpers.rb:54-68 | the loop over the operations computes the same outcome as the recursive definition |
| Helpers.ExecuteBlock | lib/grape/jsonapi/helpers.rb:53-71 | the block raises iff an operation raised or the document has errors, and then raises the operation's exception or Rollback |
| Helpers.ProcessOperations | lib/grape/jsonapi/helpers.rb:85-95 | Rollback is swallowed and anything else re-raised; a transaction restores the store when the block raised, and otherwise the block's store stands |
| Helpers.TransactionalAtomic | lib/grape/jsonapi/helpers.rb:52-95 | in a transaction, a raised operation or a document with errors leaves the store as it was; a clean run commits its changes |
| Helpers.NonTransactionalKeeps | lib/grape/jsonapi/helpers.rb:88-93 | without a transaction every change is kept, and a document with errors still finishes normally |
| Helpers.ClassifyException | lib/grape/jsonapi/helpers.rb:106-125 | only whitelisted exceptions outside the two handled kinds are re-raised; gem errors keep their list; the other kinds give one PARAM_MISSING or INTERNAL_SERVER_ERROR error |
| Helpers.HandleExceptions | lib/grape/jsonapi/helpers.rb:106-129 | handling succeeds iff there is a document and a non-empty error list, and then appends the errors result under the first error's status |
| Helpers.ProcessRequest | lib/grape/jsonapi/helpers.rb:37-48 | a parser failure escapes with the store untouched; a response renders its document with empty meta and links; only NoMethodError or whitelisted exceptions escape |
| Helpers.ProcessRequestRenders | lib/grape/jsonapi/helpers.rb:37-48 | a clean run renders its document; a caught exception renders exactly when it yields errors, placed after the results so far |
| Helpers.ProcessRequestAtomic | lib/grape/jsonapi/helpers.rb:42-44 | a transactional request that raised, held errors or escaped leaves the store as it was |
| Helpers.WarningsNotRendered | lib/grape/jsonapi/helpers.rb:39-41 | the parsed request's warnings never reach the response's meta |
| Helpers.ForbiddenOperation | lib/grape/jsonapi/helpers.rb:76-83 | the forbidden handler renders one FORBIDDEN error with status `forbidden` |
| Endpoint.Serve | lib/grape/jsonapi/api.rb:42-49 | an unrouted request is one whose path binds nothing; a refused verb renders the framework's 405 and a forbidden route the FORBIDDEN error, neither touching the store |
| Endpoint.NotAllowedResponse | lib/grape/jsonapi/api.rb:42-49 | a refused verb answers with the one 405 error and leaves the store as it was |
| Endpoint.ForbiddenResponse | lib/grape/jsonapi/relationships.rb:87-91 | a forbidden route answers with the one FORBIDDEN error and leaves the store as it was |
| Endpoint.ProcessResponse | lib/grape/jsonapi/helpers.rb:37 | a route bound to an action runs the request pipeline with that action and the route's options |
| Endpoint.CollectionMutationRefused | spec/grape/jsonapi/api_spec.rb:250-271 | PATCH and DELETE on the collection answer with one 405 error and leave the store as it was |
| Endpoint.ImmutableRelationshipForbidden | lib/grape/jsonapi/relationships.rb:53-57 | on the linkage path of an immutable relationship, every mutating verb answers FORBIDDEN and leaves the store as it was |
| Endpoint.MutableRelationshipUpdate | spec/grape/jsonapi/relationships_spec.rb:62-73 | PATCH on a mutable relationship's linkage path runs `update_relationship`; a 204 document renders an empty body |
| Endpoint.RelationshipRequestParameters | lib/grape/jsonapi/relationships.rb:101-103 | the parser sees the action suffixed with `_relationship`, the owner's controller, the relationship's name and the owner id from the path |
| Endpoint.RelatedRequest | lib/grape/jsonapi/relationships.rb:65-70 | GET on a related path asks for the related resources under the related controller, with the owner's controller as the source |

## Left out

- The jsonapi-resources gem is a parameter, not a model. This covers:
  - request parsing;
  - operation processing;
  - the response document's `status` and `has_errors?`;
  - the `JSONAPI::Error` constructor's conversion of a status;
  - serialisation to JSON.
- `Api.HandleErrors` and `Helpers.ForbiddenOperation`: an error's status is kept as given to the constructor, because its conversion belongs to the gem.
- The serializer options that `execute_request` sets on each operation (helpers.rb:55-65) are left out. They only configure serialisation.
- `context`, `key_formatter`, `route_formatter`, `resource_serializer` and `base_request` are left out. They are configuration read from the gem or Grape and pass through unchanged.
- ActiveRecord is reduced to an abstract store snapshot. A transaction restores the snapshot; nested transactions and isolation are not modelled.
- Grape's routing DSL (`resource`, `route_param`, `helpers`, `content_type`, `default_format`) is modelled by its result, a route table.
  - A request's path is given as a route pattern (`Lit` segments and `IdParam`), not as concrete text matched against patterns. This loses nothing here: `IdParam` only ever sits right after the collection segment, and the literal segments tell the routes apart.
  - The 404 for an unrouted path is Grape's own handling and is left as `NotRouted`.
  - Rack's symbol-to-status table is the `symbolCode` parameter.
- Rails' `underscore` and `singularize` are uninterpreted functions, as are I18n translations. Their rules are Rails' and not this library's.
- `RubyText.ToIOfIntToString`: `String#to_i` is modelled for leading whitespace, an optional sign, and decimal digits with single underscores between them. The `0d` radix prefix is left out.
- Logging and the `action_dispatch.exception` env entry in `handle_exceptions` are left out. They are side effects that the response does not depend on.
- Exceptions outside `StandardError` are left out: `process_request` does not catch them.
- The response document is modelled as its base meta and links plus the log of results added to it; the gem's `contents` and `status` read that log through the `Gem` parameter. `JsonApi.AddResult`, the stand-in for the gem's `add_result`, has no row of its own: the position of each added result is stated by `Helpers.RunOperationsStep`.
- The 405 for a verb the path does not bind is an assumed behaviour of Grape: the model takes it to raise an exception that reaches `rescue_from Grape::Exceptions::Base` (api.rb:42-49), and takes the string that `render_errors` returns as the handler's response. Whether the exception reaches that handler depends on the Grape version.
- `Routes.Verb` has GET, POST, PATCH and DELETE only, the verbs the library declares. PUT is left out, and so are HEAD and OPTIONS, which Grape answers itself.
- The gem's resource registry (`JSONAPI::Resource.resource_for`) is a map from keys to resource classes; a missing key is a lookup failure naming the key.
- `JsonApi.ParameterMissingErrors`: stands for the errors the gem's `ParameterMissing` exception carries. Only the count (one error), the code and the status are taken to be the gem's; the title, its translation key and the detail are placeholders, because the gem builds them.
- `JsonApi.InternalServerErrors`: stands for the errors the gem's `InternalServerError` exception carries. Only the count (one error), the code and the status are taken to be the gem's; the title, the detail and their translation keys are placeholders, because the gem builds them.
- `relationship._routed = true` is recorded as the list of routed relationship names. It is not a mutation of the gem's relationship objects.
- The value formatters are left out: they are gem configuration, not part of the request path.
- `Api.RelatedRouteExact`, `Api.RelationshipRouteExact`, `Relationships.RelationshipRoutesAt` and `Relationships.RelatedRoutesAt` assume distinct dasherized relationship names. `Api.UniqueIffDistinct` and `Api.DuplicateNamesDuplicateRoutes` state what happens otherwise.

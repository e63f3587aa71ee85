/**
 A request arriving at a declared API: the route table picks the handler, a
 verb the path does not bind is refused through the framework-error handler,
 and a matched route runs `process_request` or `forbidden_operation`.
 */
module Endpoint {
  import opened Wrappers
  import opened RubyText
  import opened JsonApi
  import opened Resources
  import opened Routes
  import opened Relationships
  import opened Rendering
  import opened Api
  import opened Helpers

  /** The framework's message for a verb the path does not bind. */
  const NotAllowedMessage: string := "405 Not Allowed"

  /** What the API does with a request: an outcome, or no route at all (answered by the framework). */
  datatype Served = Served(outcome: Outcome) | NotRouted

  /**
   Serving a request with `verb` on `path` against `table`: the matched handler
   runs; a path bound only to other verbs is taken to raise the framework's
   405, which `handle_errors` renders (how Grape refuses such a verb is
   assumed, not modelled). Neither refusal touches the store.
   */
  function Serve(gem: Gem, table: seq<Binding>, controllerName: string, verb: Verb, path: seq<Segment>, params: Params, store: Store)
    : (r: Served)
    ensures r.NotRouted? <==> BoundVerbs(table, path) == {}
    ensures DispatchOf(table, verb, path).MethodNotAllowed? ==>
      var h := HandleErrors(gem, 405, NotAllowedMessage);
      r == Served(Responded(h.rendered, h.document, store))
    ensures DispatchOf(table, verb, path) == Matched(ForbiddenHandler) ==>
      var f := ForbiddenOperation(gem);
      r == Served(Responded(f.rendered, f.document, store))
  {
    match DispatchOf(table, verb, path)
    case Matched(Process(action, options)) => Served(ProcessRequest(gem, params, controllerName, action, options, store))
    case Matched(ForbiddenHandler) =>
      var f := ForbiddenOperation(gem);
      Served(Responded(f.rendered, f.document, store))
    case MethodNotAllowed =>
      var h := HandleErrors(gem, 405, NotAllowedMessage);
      Served(Responded(h.rendered, h.document, store))
    case NotFound => NotRouted
  }

  /** A refused verb is answered with the one 405 error, and the store is left as it was. */
  lemma NotAllowedResponse(gem: Gem, table: seq<Binding>, controllerName: string, verb: Verb, path: seq<Segment>, params: Params, store: Store)
    requires DispatchOf(table, verb, path).MethodNotAllowed?
    ensures var r := Serve(gem, table, controllerName, verb, path, params, store);
            && r.Served? && r.outcome.Responded?
            && r.outcome.store == store
            && r.outcome.document.results == [ErrorsResult(Nil, [FrameworkError(405, NotAllowedMessage)])]
  {
    var h := HandleErrors(gem, 405, NotAllowedMessage);
    assert h.document.results == [ErrorsResult(Nil, [FrameworkError(405, NotAllowedMessage)])];
  }

  /** A forbidden route answers with the one FORBIDDEN error, and the store is left as it was. */
  lemma ForbiddenResponse(gem: Gem, table: seq<Binding>, controllerName: string, verb: Verb, path: seq<Segment>, params: Params, store: Store)
    requires DispatchOf(table, verb, path) == Matched(ForbiddenHandler)
    ensures var r := Serve(gem, table, controllerName, verb, path, params, store);
            && r.Served? && r.outcome.Responded?
            && r.outcome.store == store
            && r.outcome.document.results == [ErrorsResult(Sym("forbidden"), [ForbiddenError(gem)])]
  {
  }

  /** A route bound to an action runs `process_request` with that action and the route's options. */
  lemma ProcessResponse(
    gem: Gem, table: seq<Binding>, controllerName: string, verb: Verb, path: seq<Segment>, params: Params, store: Store,
    action: Action, options: Params)
    requires DispatchOf(table, verb, path) == Matched(Process(action, options))
    ensures Serve(gem, table, controllerName, verb, path, params, store)
         == Served(ProcessRequest(gem, params, controllerName, action, options, store))
  {
  }

  /**
   PATCH and DELETE on the collection path are refused with one error whose
   code is 405, and the store is left as it was.
   */
  lemma CollectionMutationRefused(gem: Gem, infl: Inflector, d: Descriptor, verb: Verb, params: Params, store: Store)
    requires verb == Patch || verb == Delete
    ensures var r := Serve(gem, JsonApiResource(infl, d).bindings, ControllerName(d.apiClass), verb,
                           CollectionPath(infl, d.apiClass), params, store);
            && r.Served? && r.outcome.Responded?
            && r.outcome.store == store
            && r.outcome.document.results == [ErrorsResult(Nil, [FrameworkError(405, NotAllowedMessage)])]
  {
    var table := JsonApiResource(infl, d).bindings;
    var path := CollectionPath(infl, d.apiClass);
    assert DispatchOf(table, verb, path).MethodNotAllowed? by {
      CollectionNotAllowed(infl, d);
    }
    NotAllowedResponse(gem, table, ControllerName(d.apiClass), verb, path, params, store);
  }

  /**
   On the linkage path of a relationship that may not be mutated, PATCH,
   DELETE and POST all answer with the one FORBIDDEN error and leave the store
   as it was.
   */
  lemma ImmutableRelationshipForbidden(
    gem: Gem, infl: Inflector, d: Descriptor, k: nat, verb: Verb, params: Params, store: Store)
    requires k < |d.relationships| && DistinctPathNames(d.relationships)
    requires !MutableRelationship(d.owner, d.relationships[k].rel)
    requires verb != Get
    ensures var path := RelationshipPath(MemberPath(infl, d.apiClass), d.relationships[k].rel);
            var r := Serve(gem, JsonApiResource(infl, d).bindings, ControllerName(d.apiClass), verb, path, params, store);
            && r.Served? && r.outcome.Responded?
            && r.outcome.store == store
            && r.outcome.document.results == [ErrorsResult(Sym("forbidden"), [ForbiddenError(gem)])]
  {
    var table := JsonApiResource(infl, d).bindings;
    var path := RelationshipPath(MemberPath(infl, d.apiClass), d.relationships[k].rel);
    assert DispatchOf(table, verb, path) == Matched(ForbiddenHandler) by {
      RelationshipRouteExact(infl, d, k, verb);
    }
    ForbiddenResponse(gem, table, ControllerName(d.apiClass), verb, path, params, store);
  }

  /**
   PATCH on the linkage path of a mutable relationship runs
   `update_relationship` with the relationship parameters; when the document's
   status is 204 the body is empty.
   */
  lemma MutableRelationshipUpdate(
    gem: Gem, infl: Inflector, d: Descriptor, k: nat, params: Params, store: Store)
    requires k < |d.relationships| && DistinctPathNames(d.relationships)
    requires MutableRelationship(d.owner, d.relationships[k].rel)
    ensures var rr := d.relationships[k];
            var o := ProcessRequest(gem, params, ControllerName(d.apiClass), RelationshipAction(UpdateBase),
                                    RelationshipParams(infl, d, rr), store);
            && Serve(gem, JsonApiResource(infl, d).bindings, ControllerName(d.apiClass), Patch,
                     RelationshipPath(MemberPath(infl, d.apiClass), rr.rel), params, store) == Served(o)
            && (o.Responded? && gem.status(o.document) == Int(204) ==> o.rendered.body == EmptyBody)
  {
    var rr := d.relationships[k];
    var table := JsonApiResource(infl, d).bindings;
    var path := RelationshipPath(MemberPath(infl, d.apiClass), rr.rel);
    var o := ProcessRequest(gem, params, ControllerName(d.apiClass), RelationshipAction(UpdateBase), RelationshipParams(infl, d, rr), store);
    assert Serve(gem, table, ControllerName(d.apiClass), Patch, path, params, store) == Served(o) by {
      RelationshipRouteExact(infl, d, k, Patch);
      ProcessResponse(gem, table, ControllerName(d.apiClass), Patch, path, params, store,
                      RelationshipAction(UpdateBase), RelationshipParams(infl, d, rr));
    }
  }

  /**
   What the parser sees for a relationship action: the action name with
   `_relationship`, the owner's controller, the relationship's name and the
   owner id taken from the path.
   */
  lemma RelationshipRequestParameters(infl: Inflector, d: Descriptor, rr: RoutedRelationship, base: BaseAction, params: Params)
    ensures var p := ActionParameters(params, ControllerName(d.apiClass), RelationshipAction(base), RelationshipParams(infl, d, rr));
            && p["action"] == Text(BaseName(base) + "_relationship")
            && p["controller"] == Text(ControllerName(d.apiClass))
            && p["relationship"] == Text(rr.rel.name)
            && OwnerIdKey(infl, d.owner) in p && p[OwnerIdKey(infl, d.owner)] == PathId
  {
    var options := RelationshipParams(infl, d, rr);
    assert OwnerIdKey(infl, d.owner) in options && "relationship" in options;
    assert OwnerIdKey(infl, d.owner) != "action" by {
      var key := OwnerIdKey(infl, d.owner);
      assert key[|key| - 1] == 'd';
    }
  }

  /**
   GET on a related path asks the parser for the related resource(s) under
   the related controller, naming the owner's controller as the source.
   */
  lemma RelatedRequest(gem: Gem, infl: Inflector, d: Descriptor, k: nat, params: Params, store: Store)
    requires k < |d.relationships| && DistinctPathNames(d.relationships)
    ensures var rr := d.relationships[k];
            var path := RelatedPath(MemberPath(infl, d.apiClass), rr.rel);
            var action := if rr.rel.cardinality == ToMany then GetRelatedResources else GetRelatedResource;
            var r := Serve(gem, JsonApiResource(infl, d).bindings, ControllerName(d.apiClass), Get, path, params, store);
            var p := ActionParameters(params, ControllerName(d.apiClass), action, RelatedParams(infl, d, rr));
            && r == Served(ProcessRequest(gem, params, ControllerName(d.apiClass), action, RelatedParams(infl, d, rr), store))
            && p["controller"] == Text(RelatedControllerName(d.apiClass, rr.target))
            && p["source"] == Text(ControllerName(d.apiClass))
            && p["relationship"] == Text(rr.rel.name)
            && p[OwnerIdKey(infl, d.owner)] == PathId
  {
    var rr := d.relationships[k];
    var table := JsonApiResource(infl, d).bindings;
    var path := RelatedPath(MemberPath(infl, d.apiClass), rr.rel);
    var action := if rr.rel.cardinality == ToMany then GetRelatedResources else GetRelatedResource;
    assert DispatchOf(table, Get, path) == Matched(Process(action, RelatedParams(infl, d, rr))) by {
      RelatedRouteExact(infl, d, k, Get);
    }
    ProcessResponse(gem, table, ControllerName(d.apiClass), Get, path, params, store, action, RelatedParams(infl, d, rr));
  }
}

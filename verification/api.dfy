/**
 The base API class: what a subclass declares when it is defined. Its
 resource segment, the collection routes (GET index, POST create), the member
 routes under `:id` (GET show, PATCH update, DELETE destroy, with no
 mutability check) and, nested under the member path, the relationship
 routes; plus the handler that turns framework exceptions into one error.
 */
module Api {
  import opened Wrappers
  import opened RubyText
  import opened JsonApi
  import opened Resources
  import opened Routes
  import opened Relationships
  import opened Rendering

  /** What a subclass declares: its bindings, and the relationship names marked `_routed`. */
  datatype Declaration = Declaration(bindings: seq<Binding>, routed: seq<string>)

  /** The resource segment: `name.demodulize.underscore`. */
  function TopSegment(infl: Inflector, apiClass: string): string {
    infl.underscore(Demodulize(apiClass))
  }

  function CollectionPath(infl: Inflector, apiClass: string): seq<Segment> {
    [Lit(TopSegment(infl, apiClass))]
  }

  /** The member path: the collection path and `route_param :id`. */
  function MemberPath(infl: Inflector, apiClass: string): seq<Segment> {
    CollectionPath(infl, apiClass) + [IdParam]
  }

  function CollectionRoutes(collection: seq<Segment>): seq<Binding> {
    [Binding(Get, collection, Process(Index, map[])),
     Binding(Post, collection, Process(Create, map[]))]
  }

  function MemberRoutes(member: seq<Segment>): seq<Binding> {
    [Binding(Get, member, Process(Show, map[])),
     Binding(Patch, member, Process(Update, map[])),
     Binding(Delete, member, Process(Destroy, map[]))]
  }

  /** `id_route`: the member routes, then the resource's relationships under the member path. */
  function IdRoute(infl: Inflector, d: Descriptor, collection: seq<Segment>): (r: Declaration)
    ensures |r.routed| == |d.relationships|
    ensures forall i :: 0 <= i < |r.routed| ==> r.routed[i] == d.relationships[i].rel.name
    ensures |r.bindings| >= 3
    ensures r.bindings[0] == Binding(Get, collection + [IdParam], Process(Show, map[]))
    ensures r.bindings[1] == Binding(Patch, collection + [IdParam], Process(Update, map[]))
    ensures r.bindings[2] == Binding(Delete, collection + [IdParam], Process(Destroy, map[]))
    ensures forall i :: 3 <= i < |r.bindings| ==>
      |r.bindings[i].path| > |collection| + 1 && r.bindings[i].path[..|collection| + 1] == collection + [IdParam]
  {
    var member := collection + [IdParam];
    RoutesNestedUnderMember(infl, d, member);
    var rels := AddResourceRelationships(infl, d, member);
    Declaration(MemberRoutes(member) + rels.bindings, rels.routed)
  }

  /** `jsonapi_resource`: the collection routes, then `id_route`. */
  function JsonApiResource(infl: Inflector, d: Descriptor): (r: Declaration)
    ensures |r.bindings| >= 5
    ensures r.routed == AddResourceRelationships(infl, d, MemberPath(infl, d.apiClass)).routed
  {
    var collection := CollectionPath(infl, d.apiClass);
    var id := IdRoute(infl, d, collection);
    Declaration(CollectionRoutes(collection) + id.bindings, id.routed)
  }

  // ---------------------------------------------------------------------
  // Resolving the resource classes a declaration needs
  // ---------------------------------------------------------------------

  /** The target of `rel` is registered. */
  predicate Registered(reg: Registry, infl: Inflector, apiClass: string, rel: Relationship) {
    RelatedResourceKey(infl, apiClass, rel) in reg
  }

  /** `rels[i]` is the first relationship whose target is not registered. */
  predicate FirstUnregistered(reg: Registry, infl: Inflector, apiClass: string, rels: seq<Relationship>, i: int) {
    && 0 <= i < |rels|
    && !Registered(reg, infl, apiClass, rels[i])
    && forall j :: 0 <= j < i ==> Registered(reg, infl, apiClass, rels[j])
  }

  /**
   Looks up the target of every relationship in order; the first unregistered
   target stops the declaration.
   */
  function ResolveRelationships(reg: Registry, infl: Inflector, apiClass: string, rels: seq<Relationship>)
    : (r: Result<seq<RoutedRelationship>, LookupError>)
    ensures r.Success? <==> forall i :: 0 <= i < |rels| ==> Registered(reg, infl, apiClass, rels[i])
    ensures r.Success? ==>
      && |r.value| == |rels|
      && forall i :: 0 <= i < |rels| ==>
           r.value[i] == RoutedRelationship(rels[i], reg[RelatedResourceKey(infl, apiClass, rels[i])])
    ensures r.Failure? ==>
      exists i :: (FirstUnregistered(reg, infl, apiClass, rels, i) && r.error == UnregisteredResource(RelatedResourceKey(infl, apiClass, rels[i])))
    decreases |rels|
  {
    if |rels| == 0 then Success([])
    else
      match RelatedResourceFor(reg, infl, apiClass, rels[0])
      case Failure(e) => Failure(e)
      case Success(target) =>
        var tail := ResolveRelationships(reg, infl, apiClass, rels[1..]);
        assert forall i :: 0 <= i < |rels| - 1 ==> rels[1..][i] == rels[i + 1];
        match tail
        case Failure(e) =>
          assert exists i :: (FirstUnregistered(reg, infl, apiClass, rels, i) && e == UnregisteredResource(RelatedResourceKey(infl, apiClass, rels[i]))) by {
            var k :| FirstUnregistered(reg, infl, apiClass, rels[1..], k)
              && e == UnregisteredResource(RelatedResourceKey(infl, apiClass, rels[1..][k]));
            assert forall j :: 1 <= j < k + 1 ==> rels[j] == rels[1..][j - 1];
            assert FirstUnregistered(reg, infl, apiClass, rels, k + 1);
          }
          Failure(e)
        case Success(rest) =>
          Success([RoutedRelationship(rels[0], target)] + rest)
  }

  /**
   What defining a subclass declares: the resource class registered under the
   controller name (looked up first), the targets of its relationships, and
   then `jsonapi_resource`.
   */
  function Declare(reg: Registry, infl: Inflector, apiClass: string): (r: Result<Declaration, LookupError>)
    ensures r.Success? <==>
      && ControllerName(apiClass) in reg
      && forall i :: 0 <= i < |reg[ControllerName(apiClass)].relationships| ==>
           Registered(reg, infl, apiClass, reg[ControllerName(apiClass)].relationships[i])
    ensures ControllerName(apiClass) !in reg ==> r == Failure(UnregisteredResource(ControllerName(apiClass)))
    ensures r.Success? ==>
      var owner := reg[ControllerName(apiClass)];
      r.value == JsonApiResource(infl, Descriptor(apiClass, owner, ResolveRelationships(reg, infl, apiClass, owner.relationships).value))
  {
    var owner :- ResourceClassFor(reg, apiClass);
    var rrs :- ResolveRelationships(reg, infl, apiClass, owner.relationships);
    Success(JsonApiResource(infl, Descriptor(apiClass, owner, rrs)))
  }

  /** The declarations of the subclasses defined so far, by class name. */
  type ApiTable = map<string, Declaration>

  /** The `inherited` hook: a new subclass declares its own resource, and nothing else changes. */
  function Inherited(apis: ApiTable, reg: Registry, infl: Inflector, subclass: string): (r: Result<ApiTable, LookupError>)
    ensures r.Success? <==> Declare(reg, infl, subclass).Success?
    ensures r.Success? ==>
      && r.value.Keys == apis.Keys + {subclass}
      && r.value[subclass] == Declare(reg, infl, subclass).value
      && forall c :: c in apis && c != subclass ==> r.value[c] == apis[c]
  {
    var decl :- Declare(reg, infl, subclass);
    Success(apis[subclass := decl])
  }

  /** Defining the subclasses `subclasses` one after the other. */
  function DefineAll(apis: ApiTable, reg: Registry, infl: Inflector, subclasses: seq<string>): Result<ApiTable, LookupError>
    decreases |subclasses|
  {
    if |subclasses| == 0 then Success(apis)
    else
      var next :- Inherited(apis, reg, infl, subclasses[0]);
      DefineAll(next, reg, infl, subclasses[1..])
  }

  /**
   Each subclass declares its routes once, from its own name alone: after
   defining a list of subclasses, every one of them holds exactly its own
   declaration, whatever else was defined before or after it, and the classes
   defined earlier keep theirs.
   */
  lemma {:induction false} DefineAllDeclaresEach(apis: ApiTable, reg: Registry, infl: Inflector, subclasses: seq<string>)
    ensures var r := DefineAll(apis, reg, infl, subclasses);
            r.Success? ==>
              && (forall i :: 0 <= i < |subclasses| ==>
                    subclasses[i] in r.value && Declare(reg, infl, subclasses[i]) == Success(r.value[subclasses[i]]))
              && (forall c :: c in apis && c !in subclasses ==> c in r.value && r.value[c] == apis[c])
    decreases |subclasses|
  {
    if |subclasses| > 0 {
      var step := Inherited(apis, reg, infl, subclasses[0]);
      if step.Success? {
        var tail := subclasses[1..];
        DefineAllDeclaresEach(step.value, reg, infl, tail);
        var r := DefineAll(apis, reg, infl, subclasses);
        assert r == DefineAll(step.value, reg, infl, tail);
        if r.Success? {
          forall i | 0 <= i < |subclasses|
            ensures subclasses[i] in r.value && Declare(reg, infl, subclasses[i]) == Success(r.value[subclasses[i]])
          {
            if i > 0 {
              assert subclasses[i] == tail[i - 1];
            } else if subclasses[0] !in tail {
              assert subclasses[0] in step.value;
            } else {
              var j :| 0 <= j < |tail| && tail[j] == subclasses[0];
            }
          }
          forall c | c in apis && c !in subclasses ensures c in r.value && r.value[c] == apis[c] {
            assert c !in tail && c != subclasses[0];
          }
        }
      }
    }
  }

  // ---------------------------------------------------------------------
  // What the declared routes bind
  // ---------------------------------------------------------------------

  /** The declared table: collection routes, member routes, relationship routes. */
  lemma BindingsShape(infl: Inflector, d: Descriptor)
    ensures JsonApiResource(infl, d).bindings
         == CollectionRoutes(CollectionPath(infl, d.apiClass))
            + (MemberRoutes(MemberPath(infl, d.apiClass)) + AddResourceRelationships(infl, d, MemberPath(infl, d.apiClass)).bindings)
  {
  }

  /** The declared table opens with the two collection routes and then the three member routes. */
  lemma ResourceRoutesHead(infl: Inflector, d: Descriptor)
    ensures |JsonApiResource(infl, d).bindings| >= 5
    ensures JsonApiResource(infl, d).bindings[..2] == CollectionRoutes(CollectionPath(infl, d.apiClass))
    ensures JsonApiResource(infl, d).bindings[2..5] == MemberRoutes(MemberPath(infl, d.apiClass))
  {
    var c := CollectionRoutes(CollectionPath(infl, d.apiClass));
    var m := MemberRoutes(MemberPath(infl, d.apiClass));
    var rels := AddResourceRelationships(infl, d, MemberPath(infl, d.apiClass)).bindings;
    BindingsShape(infl, d);
    assert (c + (m + rels))[..2] == c;
    assert (c + (m + rels))[2..5] == m;
  }

  /** Every relationship route lies strictly below the member path it was declared under. */
  lemma RoutesNestedUnderMember(infl: Inflector, d: Descriptor, member: seq<Segment>)
    ensures Below(AddResourceRelationships(infl, d, member).bindings, member)
  {
    var rrs := d.relationships;
    if |rrs| > 0 {
      RelatedBelow(infl, d, member, rrs);
      LinkageBelow(infl, d, member, rrs);
      BelowAppend(RelatedRoutes(infl, d, member, rrs), RelationshipRoutes(infl, d, member, rrs), member);
    }
  }

  /** No relationship route answers on a path no longer than the member path. */
  lemma NestedMiss(infl: Inflector, d: Descriptor, member: seq<Segment>, v: Verb, path: seq<Segment>)
    requires |path| <= |member|
    ensures HandlersAt(AddResourceRelationships(infl, d, member).bindings, v, path) == []
  {
    var rels := AddResourceRelationships(infl, d, member).bindings;
    RoutesNestedUnderMember(infl, d, member);
    forall i | 0 <= i < |rels| ensures rels[i].verb != v || rels[i].path != path {
      assert |rels[i].path| > |member|;
    }
    HandlersAtMissing(rels, v, path);
  }

  /** The collection routes on their own path: GET to `index`, POST to `create`. */
  lemma CollectionHandlers(collection: seq<Segment>, v: Verb)
    ensures HandlersAt(CollectionRoutes(collection), v, collection)
         == if v == Get then [Process(Index, map[])]
            else if v == Post then [Process(Create, map[])]
            else []
    ensures HandlersAt(MemberRoutes(collection + [IdParam]), v, collection) == []
  {
    var c := CollectionRoutes(collection);
    assert c == [c[0]] + ([c[1]] + []);
    HandlersAtCons(c[0], [c[1]] + [], v, collection);
    HandlersAtCons(c[1], [], v, collection);
    HandlersAtMissing(MemberRoutes(collection + [IdParam]), v, collection);
  }

  /** The member routes on their own path: GET to `show`, PATCH to `update`, DELETE to `destroy`. */
  lemma MemberHandlers(collection: seq<Segment>, v: Verb)
    ensures HandlersAt(MemberRoutes(collection + [IdParam]), v, collection + [IdParam])
         == if v == Get then [Process(Show, map[])]
            else if v == Patch then [Process(Update, map[])]
            else if v == Delete then [Process(Destroy, map[])]
            else []
    ensures HandlersAt(CollectionRoutes(collection), v, collection + [IdParam]) == []
  {
    var member := collection + [IdParam];
    var m := MemberRoutes(member);
    assert m == [m[0]] + ([m[1]] + ([m[2]] + []));
    HandlersAtCons(m[0], [m[1]] + ([m[2]] + []), v, member);
    HandlersAtCons(m[1], [m[2]] + [], v, member);
    HandlersAtCons(m[2], [], v, member);
    HandlersAtMissing(CollectionRoutes(collection), v, member);
  }

  /** The collection path binds exactly GET to `index` and POST to `create`. */
  lemma CollectionRoutesExact(infl: Inflector, d: Descriptor, v: Verb)
    ensures HandlersAt(JsonApiResource(infl, d).bindings, v, CollectionPath(infl, d.apiClass))
         == if v == Get then [Process(Index, map[])]
            else if v == Post then [Process(Create, map[])]
            else []
  {
    var collection := CollectionPath(infl, d.apiClass);
    var member := MemberPath(infl, d.apiClass);
    var c := CollectionRoutes(collection);
    var m := MemberRoutes(member);
    var rels := AddResourceRelationships(infl, d, member).bindings;
    BindingsShape(infl, d);
    HandlersAtLayers(c, m, rels, v, collection);
    CollectionHandlers(collection, v);
    NestedMiss(infl, d, member, v, collection);
  }

  /** PATCH and DELETE on the collection reach no handler: the path has other verbs, so they are refused. */
  lemma CollectionNotAllowed(infl: Inflector, d: Descriptor)
    ensures var bs := JsonApiResource(infl, d).bindings;
            var path := CollectionPath(infl, d.apiClass);
            && BoundVerbs(bs, path) == {Get, Post}
            && DispatchOf(bs, Patch, path) == MethodNotAllowed
            && DispatchOf(bs, Delete, path) == MethodNotAllowed
  {
    var bs := JsonApiResource(infl, d).bindings;
    var path := CollectionPath(infl, d.apiClass);
    assert |HandlersAt(bs, Get, path)| == 1 by { CollectionRoutesExact(infl, d, Get); }
    assert |HandlersAt(bs, Post, path)| == 1 by { CollectionRoutesExact(infl, d, Post); }
    assert |HandlersAt(bs, Patch, path)| == 0 by { CollectionRoutesExact(infl, d, Patch); }
    assert |HandlersAt(bs, Delete, path)| == 0 by { CollectionRoutesExact(infl, d, Delete); }
    BoundVerbsByVerb(bs, path);
  }

  /**
   The member path binds GET to `show`, PATCH to `update` and DELETE to
   `destroy` whether or not the resource is mutable, and nothing to POST.
   */
  lemma MemberRoutesExact(infl: Inflector, d: Descriptor, v: Verb)
    ensures HandlersAt(JsonApiResource(infl, d).bindings, v, MemberPath(infl, d.apiClass))
         == if v == Get then [Process(Show, map[])]
            else if v == Patch then [Process(Update, map[])]
            else if v == Delete then [Process(Destroy, map[])]
            else []
  {
    var collection := CollectionPath(infl, d.apiClass);
    var member := MemberPath(infl, d.apiClass);
    var c := CollectionRoutes(collection);
    var m := MemberRoutes(member);
    var rels := AddResourceRelationships(infl, d, member).bindings;
    BindingsShape(infl, d);
    HandlersAtLayers(c, m, rels, v, member);
    MemberHandlers(collection, v);
    NestedMiss(infl, d, member, v, member);
  }

  /** The bindings on a path below the member path are those of the relationship routes. */
  lemma NestedHandlers(infl: Inflector, d: Descriptor, v: Verb, path: seq<Segment>)
    requires |path| > 2
    ensures HandlersAt(JsonApiResource(infl, d).bindings, v, path)
         == HandlersAt(AddResourceRelationships(infl, d, MemberPath(infl, d.apiClass)).bindings, v, path)
  {
    var collection := CollectionPath(infl, d.apiClass);
    var member := MemberPath(infl, d.apiClass);
    var c := CollectionRoutes(collection);
    var m := MemberRoutes(member);
    var rels := AddResourceRelationships(infl, d, member).bindings;
    BindingsShape(infl, d);
    HandlersAtLayers(c, m, rels, v, path);
    HeadMiss(collection, v, path);
  }

  /** Neither the collection routes nor the member routes answer on a path below the member path. */
  lemma HeadMiss(collection: seq<Segment>, v: Verb, path: seq<Segment>)
    requires |path| > |collection| + 1
    ensures HandlersAt(CollectionRoutes(collection), v, path) == []
    ensures HandlersAt(MemberRoutes(collection + [IdParam]), v, path) == []
  {
    HandlersAtMissing(CollectionRoutes(collection), v, path);
    HandlersAtMissing(MemberRoutes(collection + [IdParam]), v, path);
  }

  /**
   With distinct path names, the related route of relationship `k` is the only
   binding on its path: a GET to `get_related_resources` for a to-many and to
   `get_related_resource` for a to-one, with the related parameters.
   */
  lemma RelatedRouteExact(infl: Inflector, d: Descriptor, k: nat, v: Verb)
    requires k < |d.relationships| && DistinctPathNames(d.relationships)
    ensures HandlersAt(JsonApiResource(infl, d).bindings, v, RelatedPath(MemberPath(infl, d.apiClass), d.relationships[k].rel))
         == if v == Get then
              [Process(if d.relationships[k].rel.cardinality == ToMany then GetRelatedResources else GetRelatedResource,
                       RelatedParams(infl, d, d.relationships[k]))]
            else []
  {
    var member := MemberPath(infl, d.apiClass);
    var rrs := d.relationships;
    var path := RelatedPath(member, rrs[k].rel);
    NestedHandlers(infl, d, v, path);
    HandlersAtAppend(RelatedRoutes(infl, d, member, rrs), RelationshipRoutes(infl, d, member, rrs), v, path);
    RelatedRoutesAt(infl, d, member, rrs, k, v);
    assert !OnLinkagePath(member, rrs, path);
    RelationshipRoutesMiss(infl, d, member, rrs, path, v);
  }

  /**
   With distinct path names, the linkage path of relationship `k` binds exactly
   what `LinkageHandlers` lists for each verb.
   */
  lemma RelationshipRouteExact(infl: Inflector, d: Descriptor, k: nat, v: Verb)
    requires k < |d.relationships| && DistinctPathNames(d.relationships)
    ensures HandlersAt(JsonApiResource(infl, d).bindings, v, RelationshipPath(MemberPath(infl, d.apiClass), d.relationships[k].rel))
         == LinkageHandlers(infl, d, d.relationships[k], v)
  {
    var member := MemberPath(infl, d.apiClass);
    var rrs := d.relationships;
    var path := RelationshipPath(member, rrs[k].rel);
    var related := RelatedRoutes(infl, d, member, rrs);
    NestedHandlers(infl, d, v, path);
    HandlersAtAppend(related, RelationshipRoutes(infl, d, member, rrs), v, path);
    RelatedRoutesMissLinkage(infl, d, member, rrs, rrs[k].rel, v);
    RelationshipRoutesAt(infl, d, member, rrs, k, v);
    RelationshipResourceHandlers(infl, d, member, rrs[k], v);
  }

  /**
   A resource without relationships declares the two collection routes and the
   three member routes, nothing deeper, and marks nothing routed.
   */
  lemma WithoutRelationships(infl: Inflector, d: Descriptor)
    requires |d.relationships| == 0
    ensures var r := JsonApiResource(infl, d);
            && |r.bindings| == 5
            && r.routed == []
            && forall i :: 0 <= i < 5 ==> r.bindings[i].path in {CollectionPath(infl, d.apiClass), MemberPath(infl, d.apiClass)}
  {
  }

  /** The declared table binds no verb twice on a path exactly when the relationships' path names are distinct. */
  lemma UniqueIffDistinct(infl: Inflector, d: Descriptor)
    ensures UniqueBindings(JsonApiResource(infl, d).bindings) <==> DistinctPathNames(d.relationships)
  {
    if DistinctPathNames(d.relationships) {
      DistinctNamesUnique(infl, d);
    } else {
      DuplicateNamesDuplicateRoutes(infl, d);
    }
  }

  lemma DistinctNamesUnique(infl: Inflector, d: Descriptor)
    requires DistinctPathNames(d.relationships)
    ensures UniqueBindings(JsonApiResource(infl, d).bindings)
  {
    var collection := CollectionPath(infl, d.apiClass);
    var member := MemberPath(infl, d.apiClass);
    var c := CollectionRoutes(collection);
    var m := MemberRoutes(member);
    var rels := AddResourceRelationships(infl, d, member).bindings;
    assert UniqueBindings(rels) by {
      AddedRoutesUnique(infl, d, member);
    }
    assert forall i :: 0 <= i < |rels| ==> |rels[i].path| > |collection| + 1 by {
      RoutesNestedUnderMember(infl, d, member);
    }
    assert UniqueBindings(c + (m + rels)) by {
      HeadRoutesLayers(collection);
      UniqueLayers(c, m, rels, |collection|);
    }
    BindingsShape(infl, d);
  }

  /** The collection routes and the member routes bind no verb twice, on paths one segment apart. */
  lemma HeadRoutesLayers(collection: seq<Segment>)
    ensures var c := CollectionRoutes(collection);
            var m := MemberRoutes(collection + [IdParam]);
            && UniqueBindings(c) && UniqueBindings(m)
            && (forall i :: 0 <= i < |c| ==> |c[i].path| == |collection|)
            && (forall i :: 0 <= i < |m| ==> |m[i].path| == |collection| + 1)
  {
  }

  lemma DuplicateNamesDuplicateRoutes(infl: Inflector, d: Descriptor)
    requires !DistinctPathNames(d.relationships)
    ensures !UniqueBindings(JsonApiResource(infl, d).bindings)
  {
    var rrs := d.relationships;
    var i, j :| 0 <= i < j < |rrs| && PathName(rrs[i].rel) == PathName(rrs[j].rel);
    var member := MemberPath(infl, d.apiClass);
    var c := CollectionRoutes(CollectionPath(infl, d.apiClass));
    var m := MemberRoutes(member);
    var rels := AddResourceRelationships(infl, d, member).bindings;
    assert !UniqueBindings(c + (m + rels)) by {
      SameNameSameRelated(infl, d, member, i, j);
      CollisionExtends(c, m, rels, i, j);
    }
    BindingsShape(infl, d);
  }

  /** Two relationships with the same path name give two GET routes on the same path. */
  lemma SameNameSameRelated(infl: Inflector, d: Descriptor, member: seq<Segment>, i: nat, j: nat)
    requires i < j < |d.relationships| && PathName(d.relationships[i].rel) == PathName(d.relationships[j].rel)
    ensures Collide(AddResourceRelationships(infl, d, member).bindings, i, j)
  {
    var rrs := d.relationships;
    var related := RelatedRoutes(infl, d, member, rrs);
    var rels := AddResourceRelationships(infl, d, member).bindings;
    assert rels == related + RelationshipRoutes(infl, d, member, rrs);
    assert rels[i] == related[i] && rels[j] == related[j];
    assert related[i].path == RelatedPath(member, rrs[i].rel);
    assert related[j].path == RelatedPath(member, rrs[j].rel);
  }

  /** For `A::B::People` the resource segment is the underscored `People`. */
  lemma TopSegmentOfQualified(infl: Inflector, segs: seq<string>)
    requires ValidSegments(segs)
    ensures TopSegment(infl, QualifiedName(segs)) == infl.underscore(segs[|segs| - 1])
  {
    DemodulizeOfQualified(segs);
  }

  // ---------------------------------------------------------------------
  // Framework exceptions
  // ---------------------------------------------------------------------

  /** The error made from a framework exception: its status as the code, its message as the title. */
  function FrameworkError(status: int, message: string): Error {
    Error(StatusCode(status), Nil, message, None)
  }

  /** `handle_errors`: a framework exception is rendered as exactly one error. */
  function HandleErrors(gem: Gem, status: int, message: string): (r: ErrorsRendering)
    ensures RenderErrors(gem, [FrameworkError(status, message)]) == Success(r)
    ensures |r.document.results| == 1 && r.document.results[0].ErrorsResult?
    ensures var errs := r.document.results[0].errors;
            && |errs| == 1
            && errs[0].code == StatusCode(status)
            && errs[0].title == message
            && errs[0].detail == None
            && r.document.results[0].status == errs[0].status
  {
    RenderErrors(gem, [FrameworkError(status, message)]).value
  }
}

/**
 The routes declared for a resource's relationships: for each relationship a
 related-resource route `{type}/:id/{name}` and, under `relationships`, the
 linkage route `{type}/:id/relationships/{name}` with its mutators or the
 forbidden handler; and the parameters each route hands to the request parser.
 */
module Relationships {
  import opened RubyText
  import opened JsonApi
  import opened Resources
  import opened Routes

  /** A relationship together with the resource `related_resource_for` found for it. */
  datatype RoutedRelationship = RoutedRelationship(rel: Relationship, target: ResourceClass)

  /** An API class, its resource class, and its relationships with their targets resolved. */
  datatype Descriptor = Descriptor(apiClass: string, owner: ResourceClass, relationships: seq<RoutedRelationship>)

  /** `to_many?`. */
  predicate IsToMany(rel: Relationship) {
    rel.cardinality == ToMany
  }

  /** `mutable_relationship?`. */
  predicate MutableRelationship(owner: ResourceClass, rel: Relationship) {
    owner.mutable && rel.targetMutable && !rel.immutable
  }

  /** The name of the parameter carrying the owner's id: `"#{singular type}_id"`. */
  function OwnerIdKey(infl: Inflector, owner: ResourceClass): (k: string)
    ensures |k| >= 3 && k[|k| - 3..] == "_id"
  {
    infl.singularize(owner.typeName) + "_id"
  }

  /** `shared_resource_params`. */
  function SharedResourceParams(infl: Inflector, owner: ResourceClass, rel: Relationship): (p: Params)
    ensures p.Keys == {OwnerIdKey(infl, owner), "relationship"}
    ensures p[OwnerIdKey(infl, owner)] == PathId
    ensures p["relationship"] == Text(rel.name)
  {
    var key := OwnerIdKey(infl, owner);
    assert key != "relationship" by {
      assert key[|key| - 1] == 'd';
    }
    map[key := PathId, "relationship" := Text(rel.name)]
  }

  /** `related_params`: the shared parameters, the related controller, and the owner as `source`. */
  function RelatedParams(infl: Inflector, d: Descriptor, rr: RoutedRelationship): (p: Params)
    ensures p.Keys == {OwnerIdKey(infl, d.owner), "relationship", "controller", "source"}
    ensures p[OwnerIdKey(infl, d.owner)] == PathId
    ensures p["relationship"] == Text(rr.rel.name)
    ensures p["controller"] == Text(RelatedControllerName(d.apiClass, rr.target))
    ensures p["source"] == Text(ControllerName(d.apiClass))
  {
    var key := OwnerIdKey(infl, d.owner);
    assert key != "controller" && key != "source" by {
      assert key[|key| - 1] == 'd';
    }
    SharedResourceParams(infl, d.owner, rr.rel)
      + map["controller" := Text(RelatedControllerName(d.apiClass, rr.target)),
            "source" := Text(ControllerName(d.apiClass))]
  }

  /** `relationship_params`: the shared parameters and the owner's own controller. */
  function RelationshipParams(infl: Inflector, d: Descriptor, rr: RoutedRelationship): (p: Params)
    ensures p.Keys == {OwnerIdKey(infl, d.owner), "relationship", "controller"}
    ensures p[OwnerIdKey(infl, d.owner)] == PathId
    ensures p["relationship"] == Text(rr.rel.name)
    ensures p["controller"] == Text(ControllerName(d.apiClass))
  {
    var key := OwnerIdKey(infl, d.owner);
    assert key != "controller" by {
      assert key[|key| - 1] == 'd';
    }
    SharedResourceParams(infl, d.owner, rr.rel) + map["controller" := Text(ControllerName(d.apiClass))]
  }

  /** `process_relationship_request(action)`. */
  function ProcessRelationshipRequest(infl: Inflector, d: Descriptor, rr: RoutedRelationship, base: BaseAction): Handler {
    Process(RelationshipAction(base), RelationshipParams(infl, d, rr))
  }

  /** The segment a relationship's routes use. */
  function PathName(rel: Relationship): string {
    Dasherize(rel.name)
  }

  function RelatedPath(member: seq<Segment>, rel: Relationship): seq<Segment> {
    member + [Lit(PathName(rel))]
  }

  function RelationshipPath(member: seq<Segment>, rel: Relationship): seq<Segment> {
    member + [Lit("relationships"), Lit(PathName(rel))]
  }

  /** `declare_related_resource`: one GET, whose action depends on the cardinality. */
  function DeclareRelatedResource(infl: Inflector, d: Descriptor, member: seq<Segment>, rr: RoutedRelationship): Binding {
    var action := if IsToMany(rr.rel) then GetRelatedResources else GetRelatedResource;
    Binding(Get, RelatedPath(member, rr.rel), Process(action, RelatedParams(infl, d, rr)))
  }

  /** `define_relationship_mutators`: PATCH and DELETE, and POST only for to-many. */
  function DefineRelationshipMutators(infl: Inflector, d: Descriptor, member: seq<Segment>, rr: RoutedRelationship): seq<Binding> {
    var path := RelationshipPath(member, rr.rel);
    [Binding(Patch, path, ProcessRelationshipRequest(infl, d, rr, UpdateBase)),
     Binding(Delete, path, ProcessRelationshipRequest(infl, d, rr, DestroyBase))]
    + (if IsToMany(rr.rel) then [Binding(Post, path, ProcessRelationshipRequest(infl, d, rr, CreateBase))] else [])
  }

  /** `forbid_relationship_mutation`: PATCH, DELETE and POST all forbidden. */
  function ForbidRelationshipMutation(path: seq<Segment>): seq<Binding> {
    [Binding(Patch, path, ForbiddenHandler),
     Binding(Delete, path, ForbiddenHandler),
     Binding(Post, path, ForbiddenHandler)]
  }

  /** `declare_relationship_resource`: GET always, then mutators or the forbidden handler. */
  function DeclareRelationshipResource(infl: Inflector, d: Descriptor, member: seq<Segment>, rr: RoutedRelationship)
    : (bs: seq<Binding>)
    ensures forall i :: 0 <= i < |bs| ==> bs[i].path == RelationshipPath(member, rr.rel)
  {
    var path := RelationshipPath(member, rr.rel);
    [Binding(Get, path, ProcessRelationshipRequest(infl, d, rr, ShowBase))]
    + (if MutableRelationship(d.owner, rr.rel) then DefineRelationshipMutators(infl, d, member, rr)
       else ForbidRelationshipMutation(path))
  }

  /** The related-resource routes of `rrs`, in declaration order. */
  function RelatedRoutes(infl: Inflector, d: Descriptor, member: seq<Segment>, rrs: seq<RoutedRelationship>)
    : (bs: seq<Binding>)
    ensures |bs| == |rrs|
    ensures forall i :: 0 <= i < |bs| ==>
      && bs[i].verb == Get
      && bs[i].path == member + [Lit(Dasherize(rrs[i].rel.name))]
      && bs[i].handler == Process(if rrs[i].rel.cardinality == ToMany then GetRelatedResources else GetRelatedResource,
                                  RelatedParams(infl, d, rrs[i]))
  {
    seq(|rrs|, i requires 0 <= i < |rrs| => DeclareRelatedResource(infl, d, member, rrs[i]))
  }

  /** The routes under `relationships` for `rrs`, relationship by relationship. */
  function RelationshipRoutes(infl: Inflector, d: Descriptor, member: seq<Segment>, rrs: seq<RoutedRelationship>)
    : seq<Binding>
    decreases |rrs|
  {
    if |rrs| == 0 then []
    else DeclareRelationshipResource(infl, d, member, rrs[0]) + RelationshipRoutes(infl, d, member, rrs[1..])
  }

  /** `p` is the linkage path of one of `rrs`. */
  predicate OnLinkagePath(member: seq<Segment>, rrs: seq<RoutedRelationship>, p: seq<Segment>) {
    exists k :: 0 <= k < |rrs| && RelationshipPath(member, rrs[k].rel) == p
  }

  /** Every route under `relationships` sits on the linkage path of one of the relationships. */
  lemma {:induction false} RelationshipRoutesPaths(infl: Inflector, d: Descriptor, member: seq<Segment>, rrs: seq<RoutedRelationship>)
    ensures forall i :: 0 <= i < |RelationshipRoutes(infl, d, member, rrs)| ==>
      OnLinkagePath(member, rrs, RelationshipRoutes(infl, d, member, rrs)[i].path)
    decreases |rrs|
  {
    if |rrs| > 0 {
      var head := DeclareRelationshipResource(infl, d, member, rrs[0]);
      var tail := RelationshipRoutes(infl, d, member, rrs[1..]);
      RelationshipRoutesPaths(infl, d, member, rrs[1..]);
      var bs := head + tail;
      assert bs == RelationshipRoutes(infl, d, member, rrs);
      forall i | 0 <= i < |bs| ensures OnLinkagePath(member, rrs, bs[i].path) {
        if i < |head| {
          assert bs[i] == head[i];
          assert RelationshipPath(member, rrs[0].rel) == bs[i].path;
        } else {
          assert bs[i] == tail[i - |head|];
          assert OnLinkagePath(member, rrs[1..], tail[i - |head|].path);
          var k :| 0 <= k < |rrs[1..]| && RelationshipPath(member, rrs[1..][k].rel) == tail[i - |head|].path;
          assert rrs[1..][k] == rrs[k + 1];
        }
      }
    }
  }

  /** A path that is no relationship's linkage path has no route under `relationships`. */
  lemma RelationshipRoutesMiss(
    infl: Inflector, d: Descriptor, member: seq<Segment>, rrs: seq<RoutedRelationship>, path: seq<Segment>, v: Verb)
    requires !OnLinkagePath(member, rrs, path)
    ensures HandlersAt(RelationshipRoutes(infl, d, member, rrs), v, path) == []
  {
    var bs := RelationshipRoutes(infl, d, member, rrs);
    RelationshipRoutesPaths(infl, d, member, rrs);
    forall i | 0 <= i < |bs| ensures bs[i].verb != v || bs[i].path != path {
      assert OnLinkagePath(member, rrs, bs[i].path);
    }
    HandlersAtMissing(bs, v, path);
  }

  /** The bindings `add_resource_relationships` declares, and the names it marks `_routed`. */
  datatype RelationshipDeclaration = RelationshipDeclaration(bindings: seq<Binding>, routed: seq<string>)

  /** `add_resource_relationships`: nothing at all for a resource without relationships. */
  function AddResourceRelationships(infl: Inflector, d: Descriptor, member: seq<Segment>): (r: RelationshipDeclaration)
    ensures |r.routed| == |d.relationships|
    ensures forall i :: 0 <= i < |r.routed| ==> r.routed[i] == d.relationships[i].rel.name
  {
    var rrs := d.relationships;
    if |rrs| == 0 then RelationshipDeclaration([], [])
    else
      RelationshipDeclaration(
        RelatedRoutes(infl, d, member, rrs) + RelationshipRoutes(infl, d, member, rrs),
        seq(|rrs|, i requires 0 <= i < |rrs| => rrs[i].rel.name))
  }

  // ---------------------------------------------------------------------
  // What the relationship routes bind
  // ---------------------------------------------------------------------

  /** No two relationships share a path segment. */
  predicate DistinctPathNames(rrs: seq<RoutedRelationship>) {
    forall i, j :: 0 <= i < j < |rrs| ==> PathName(rrs[i].rel) != PathName(rrs[j].rel)
  }

  lemma DistinctPathNamesTail(rrs: seq<RoutedRelationship>)
    requires |rrs| > 0 && DistinctPathNames(rrs)
    ensures DistinctPathNames(rrs[1..])
  {
    var tail := rrs[1..];
    forall i, j | 0 <= i < j < |tail| ensures PathName(tail[i].rel) != PathName(tail[j].rel) {
      assert tail[i] == rrs[i + 1] && tail[j] == rrs[j + 1];
    }
  }

  lemma PathsInjective(member: seq<Segment>, a: Relationship, b: Relationship)
    ensures RelatedPath(member, a) == RelatedPath(member, b) ==> PathName(a) == PathName(b)
    ensures RelationshipPath(member, a) == RelationshipPath(member, b) ==> PathName(a) == PathName(b)
  {
    if RelatedPath(member, a) == RelatedPath(member, b) {
      assert RelatedPath(member, a)[|member|] == Lit(PathName(a));
    }
    if RelationshipPath(member, a) == RelationshipPath(member, b) {
      assert RelationshipPath(member, a)[|member| + 1] == Lit(PathName(a));
    }
  }

  /**
   What each verb reaches on a relationship's linkage path, verb by verb: GET
   shows the linkage; PATCH and DELETE update and destroy it when the owner and
   the target are mutable and the relationship is not marked immutable, and are
   forbidden otherwise; POST adds to a mutable to-many linkage, is unbound for a
   mutable to-one, and is forbidden whenever mutation is not allowed.
   */
  function LinkageHandlers(infl: Inflector, d: Descriptor, rr: RoutedRelationship, v: Verb): seq<Handler> {
    var params := RelationshipParams(infl, d, rr);
    var mutable := d.owner.mutable && rr.rel.targetMutable && !rr.rel.immutable;
    match v
    case Get => [Process(RelationshipAction(ShowBase), params)]
    case Patch => [if mutable then Process(RelationshipAction(UpdateBase), params) else ForbiddenHandler]
    case Delete => [if mutable then Process(RelationshipAction(DestroyBase), params) else ForbiddenHandler]
    case Post =>
      if !mutable then [ForbiddenHandler]
      else if rr.rel.cardinality == ToMany then [Process(RelationshipAction(CreateBase), params)]
      else []
  }

  /** `forbid_relationship_mutation` binds the forbidden handler to every verb but GET. */
  lemma ForbiddenHandlers(path: seq<Segment>, v: Verb)
    ensures HandlersAt(ForbidRelationshipMutation(path), v, path) == if v == Get then [] else [ForbiddenHandler]
  {
    var bs := ForbidRelationshipMutation(path);
    HandlersAtCons(bs[0], bs[1..], v, path);
    HandlersAtCons(bs[1], bs[2..], v, path);
    HandlersAtCons(bs[2], [], v, path);
    assert bs[1..] == [bs[1]] + bs[2..] && bs[2..] == [bs[2]] + [];
  }

  /** `define_relationship_mutators` binds PATCH, DELETE, and POST only for a to-many relationship. */
  lemma MutatorHandlers(infl: Inflector, d: Descriptor, member: seq<Segment>, rr: RoutedRelationship, v: Verb)
    ensures HandlersAt(DefineRelationshipMutators(infl, d, member, rr), v, RelationshipPath(member, rr.rel))
         == match v
            case Get => []
            case Patch => [ProcessRelationshipRequest(infl, d, rr, UpdateBase)]
            case Delete => [ProcessRelationshipRequest(infl, d, rr, DestroyBase)]
            case Post => if IsToMany(rr.rel) then [ProcessRelationshipRequest(infl, d, rr, CreateBase)] else []
  {
    var path := RelationshipPath(member, rr.rel);
    var bs := DefineRelationshipMutators(infl, d, member, rr);
    var post := bs[2..];
    HandlersAtCons(bs[0], bs[1..], v, path);
    HandlersAtCons(bs[1], post, v, path);
    assert bs[1..] == [bs[1]] + post;
    if IsToMany(rr.rel) {
      HandlersAtCons(post[0], [], v, path);
      assert post == [post[0]] + [];
    } else {
      assert post == [];
    }
  }

  /** `declare_relationship_resource` binds on the linkage path exactly what `LinkageHandlers` lists. */
  lemma RelationshipResourceHandlers(infl: Inflector, d: Descriptor, member: seq<Segment>, rr: RoutedRelationship, v: Verb)
    ensures HandlersAt(DeclareRelationshipResource(infl, d, member, rr), v, RelationshipPath(member, rr.rel))
         == LinkageHandlers(infl, d, rr, v)
  {
    var bs := DeclareRelationshipResource(infl, d, member, rr);
    var path := RelationshipPath(member, rr.rel);
    HandlersAtCons(bs[0], bs[1..], v, path);
    assert bs == [bs[0]] + bs[1..];
    if MutableRelationship(d.owner, rr.rel) {
      MutatorHandlers(infl, d, member, rr, v);
    } else {
      ForbiddenHandlers(path, v);
    }
  }

  /** The routes of one relationship's linkage path never bind a verb twice. */
  lemma RelationshipResourceUnique(infl: Inflector, d: Descriptor, member: seq<Segment>, rr: RoutedRelationship)
    ensures UniqueBindings(DeclareRelationshipResource(infl, d, member, rr))
  {
    var bs := DeclareRelationshipResource(infl, d, member, rr);
    forall i, j | 0 <= i < j < |bs| ensures bs[i].verb != bs[j].verb || bs[i].path != bs[j].path {
    }
  }

  /** The linkage routes of relationship `k` are the only bindings on its path. */
  lemma {:induction false} RelationshipRoutesAt(
    infl: Inflector, d: Descriptor, member: seq<Segment>, rrs: seq<RoutedRelationship>, k: nat, v: Verb)
    requires k < |rrs| && DistinctPathNames(rrs)
    ensures HandlersAt(RelationshipRoutes(infl, d, member, rrs), v, RelationshipPath(member, rrs[k].rel))
         == HandlersAt(DeclareRelationshipResource(infl, d, member, rrs[k]), v, RelationshipPath(member, rrs[k].rel))
    decreases |rrs|
  {
    var path := RelationshipPath(member, rrs[k].rel);
    var head := DeclareRelationshipResource(infl, d, member, rrs[0]);
    var tail := RelationshipRoutes(infl, d, member, rrs[1..]);
    HandlersAtAppend(head, tail, v, path);
    if k == 0 {
      LaterRoutesMissFirst(infl, d, member, rrs, v);
    } else {
      FirstRoutesMissLater(infl, d, member, rrs, k, v);
      DistinctPathNamesTail(rrs);
      TailIndex(rrs, k);
      RelationshipRoutesAt(infl, d, member, rrs[1..], k - 1, v);
    }
  }

  lemma TailIndex<T>(s: seq<T>, k: nat)
    requires 0 < k < |s|
    ensures s[1..][k - 1] == s[k]
  {
  }

  /** The related routes bind nothing on a linkage path, which is one segment longer. */
  lemma RelatedRoutesMissLinkage(
    infl: Inflector, d: Descriptor, member: seq<Segment>, rrs: seq<RoutedRelationship>, rel: Relationship, v: Verb)
    ensures HandlersAt(RelatedRoutes(infl, d, member, rrs), v, RelationshipPath(member, rel)) == []
  {
    var related := RelatedRoutes(infl, d, member, rrs);
    var path := RelationshipPath(member, rel);
    forall i | 0 <= i < |related| ensures related[i].verb != v || related[i].path != path {
      assert |related[i].path| == |member| + 1;
    }
    HandlersAtMissing(related, v, path);
  }

  /** The linkage routes of the first relationship bind nothing on a later one's path. */
  lemma FirstRoutesMissLater(infl: Inflector, d: Descriptor, member: seq<Segment>, rrs: seq<RoutedRelationship>, k: nat, v: Verb)
    requires 0 < k < |rrs| && DistinctPathNames(rrs)
    ensures HandlersAt(DeclareRelationshipResource(infl, d, member, rrs[0]), v, RelationshipPath(member, rrs[k].rel)) == []
  {
    PathsInjective(member, rrs[0].rel, rrs[k].rel);
    HandlersAtMissing(DeclareRelationshipResource(infl, d, member, rrs[0]), v, RelationshipPath(member, rrs[k].rel));
  }

  /** The linkage routes of the later relationships bind nothing on the first one's path. */
  lemma LaterRoutesMissFirst(infl: Inflector, d: Descriptor, member: seq<Segment>, rrs: seq<RoutedRelationship>, v: Verb)
    requires |rrs| > 0 && DistinctPathNames(rrs)
    ensures HandlersAt(RelationshipRoutes(infl, d, member, rrs[1..]), v, RelationshipPath(member, rrs[0].rel)) == []
  {
    var path := RelationshipPath(member, rrs[0].rel);
    forall j | 0 <= j < |rrs[1..]| ensures RelationshipPath(member, rrs[1..][j].rel) != path {
      PathsInjective(member, rrs[j + 1].rel, rrs[0].rel);
    }
    RelationshipRoutesMiss(infl, d, member, rrs[1..], path, v);
  }

  /**
   The related route of relationship `k` is the only binding on its path: a GET,
   to `get_related_resources` for a to-many and `get_related_resource` for a to-one.
   */
  lemma RelatedRoutesAt(infl: Inflector, d: Descriptor, member: seq<Segment>, rrs: seq<RoutedRelationship>, k: nat, v: Verb)
    requires k < |rrs| && DistinctPathNames(rrs)
    ensures HandlersAt(RelatedRoutes(infl, d, member, rrs), v, RelatedPath(member, rrs[k].rel))
         == if v == Get then
              [Process(if rrs[k].rel.cardinality == ToMany then GetRelatedResources else GetRelatedResource,
                       RelatedParams(infl, d, rrs[k]))]
            else []
  {
    var bs := RelatedRoutes(infl, d, member, rrs);
    var path := RelatedPath(member, rrs[k].rel);
    forall i | 0 <= i < |bs| && i != k ensures bs[i].verb != v || bs[i].path != path {
      PathsInjective(member, rrs[i].rel, rrs[k].rel);
    }
    HandlersAtOnly(bs, k, v, path);
  }

  lemma RelatedRoutesUnique(infl: Inflector, d: Descriptor, member: seq<Segment>, rrs: seq<RoutedRelationship>)
    requires DistinctPathNames(rrs)
    ensures UniqueBindings(RelatedRoutes(infl, d, member, rrs))
  {
    var bs := RelatedRoutes(infl, d, member, rrs);
    forall i, j | 0 <= i < j < |bs| ensures bs[i].verb != bs[j].verb || bs[i].path != bs[j].path {
      PathsInjective(member, rrs[i].rel, rrs[j].rel);
    }
  }

  lemma {:induction false} RelationshipRoutesUnique(infl: Inflector, d: Descriptor, member: seq<Segment>, rrs: seq<RoutedRelationship>)
    requires DistinctPathNames(rrs)
    ensures UniqueBindings(RelationshipRoutes(infl, d, member, rrs))
    decreases |rrs|
  {
    if |rrs| > 0 {
      var head := DeclareRelationshipResource(infl, d, member, rrs[0]);
      var tail := RelationshipRoutes(infl, d, member, rrs[1..]);
      RelationshipResourceUnique(infl, d, member, rrs[0]);
      DistinctPathNamesTail(rrs);
      RelationshipRoutesUnique(infl, d, member, rrs[1..]);
      RelationshipRoutesPaths(infl, d, member, rrs[1..]);
      forall i, j | 0 <= i < |head| && 0 <= j < |tail| ensures head[i].verb != tail[j].verb || head[i].path != tail[j].path {
        assert OnLinkagePath(member, rrs[1..], tail[j].path);
        var k :| 0 <= k < |rrs[1..]| && RelationshipPath(member, rrs[1..][k].rel) == tail[j].path;
        assert rrs[1..][k] == rrs[k + 1];
        PathsInjective(member, rrs[0].rel, rrs[k + 1].rel);
      }
      UniqueBindingsAppend(head, tail);
    }
  }

  /** The linkage GET of each relationship is among the routes under `relationships`. */
  lemma {:induction false} LinkageShowDeclared(
    infl: Inflector, d: Descriptor, member: seq<Segment>, rrs: seq<RoutedRelationship>, k: nat)
    requires k < |rrs|
    ensures Binding(Get, RelationshipPath(member, rrs[k].rel), ProcessRelationshipRequest(infl, d, rrs[k], ShowBase))
            in RelationshipRoutes(infl, d, member, rrs)
    decreases |rrs|
  {
    var head := DeclareRelationshipResource(infl, d, member, rrs[0]);
    var tail := RelationshipRoutes(infl, d, member, rrs[1..]);
    var show := Binding(Get, RelationshipPath(member, rrs[k].rel), ProcessRelationshipRequest(infl, d, rrs[k], ShowBase));
    if k == 0 {
      assert head[0] == show;
      InAppendLeft(head, tail, show);
    } else {
      LinkageShowDeclared(infl, d, member, rrs[1..], k - 1);
      TailIndex(rrs, k);
      InAppendRight(head, tail, show);
    }
  }

  /** `p` is the related path or the linkage path of one of `rrs`. */
  predicate OnRelationshipPath(member: seq<Segment>, rrs: seq<RoutedRelationship>, p: seq<Segment>) {
    exists k :: 0 <= k < |rrs| && (RelatedPath(member, rrs[k].rel) == p || RelationshipPath(member, rrs[k].rel) == p)
  }

  /**
   What `add_resource_relationships` binds: nothing exactly when there are no
   relationships; for each relationship its related GET and its linkage GET;
   and nothing off the related and linkage paths of the relationships.
   */
  lemma AddedRoutes(infl: Inflector, d: Descriptor, member: seq<Segment>)
    ensures |AddResourceRelationships(infl, d, member).bindings| == 0 <==> |d.relationships| == 0
    ensures forall k :: 0 <= k < |d.relationships| ==>
      Binding(Get, RelatedPath(member, d.relationships[k].rel),
              Process(if d.relationships[k].rel.cardinality == ToMany then GetRelatedResources else GetRelatedResource,
                      RelatedParams(infl, d, d.relationships[k])))
      in AddResourceRelationships(infl, d, member).bindings
    ensures forall k :: 0 <= k < |d.relationships| ==>
      Binding(Get, RelationshipPath(member, d.relationships[k].rel), ProcessRelationshipRequest(infl, d, d.relationships[k], ShowBase))
      in AddResourceRelationships(infl, d, member).bindings
    ensures OnRelationshipPaths(AddResourceRelationships(infl, d, member).bindings, member, d.relationships)
  {
    var rrs := d.relationships;
    forall k | 0 <= k < |rrs|
      ensures Binding(Get, RelatedPath(member, rrs[k].rel),
                      Process(if rrs[k].rel.cardinality == ToMany then GetRelatedResources else GetRelatedResource,
                              RelatedParams(infl, d, rrs[k]))) in AddResourceRelationships(infl, d, member).bindings
      ensures Binding(Get, RelationshipPath(member, rrs[k].rel), ProcessRelationshipRequest(infl, d, rrs[k], ShowBase))
              in AddResourceRelationships(infl, d, member).bindings
    {
      RelatedDeclared(infl, d, member, k);
      LinkageDeclared(infl, d, member, k);
    }
    AddedRoutesOnPaths(infl, d, member);
  }

  lemma RelatedDeclared(infl: Inflector, d: Descriptor, member: seq<Segment>, k: nat)
    requires k < |d.relationships|
    ensures Binding(Get, RelatedPath(member, d.relationships[k].rel),
                    Process(if d.relationships[k].rel.cardinality == ToMany then GetRelatedResources else GetRelatedResource,
                            RelatedParams(infl, d, d.relationships[k])))
            in AddResourceRelationships(infl, d, member).bindings
  {
    var related := RelatedRoutes(infl, d, member, d.relationships);
    var linkage := RelationshipRoutes(infl, d, member, d.relationships);
    assert AddResourceRelationships(infl, d, member).bindings == related + linkage;
    assert (related + linkage)[k] == related[k];
  }

  lemma LinkageDeclared(infl: Inflector, d: Descriptor, member: seq<Segment>, k: nat)
    requires k < |d.relationships|
    ensures Binding(Get, RelationshipPath(member, d.relationships[k].rel), ProcessRelationshipRequest(infl, d, d.relationships[k], ShowBase))
            in AddResourceRelationships(infl, d, member).bindings
  {
    var related := RelatedRoutes(infl, d, member, d.relationships);
    var linkage := RelationshipRoutes(infl, d, member, d.relationships);
    LinkageShowDeclared(infl, d, member, d.relationships, k);
    InAppendRight(related, linkage,
                  Binding(Get, RelationshipPath(member, d.relationships[k].rel), ProcessRelationshipRequest(infl, d, d.relationships[k], ShowBase)));
  }

  lemma InAppendLeft<T>(a: seq<T>, b: seq<T>, x: T)
    requires x in a
    ensures x in a + b
  {
    var j :| 0 <= j < |a| && a[j] == x;
    assert (a + b)[j] == x;
  }

  lemma InAppendRight<T>(a: seq<T>, b: seq<T>, x: T)
    requires x in b
    ensures x in a + b
  {
    var j :| 0 <= j < |b| && b[j] == x;
    assert (a + b)[|a| + j] == x;
  }

  /** Every binding of `table` sits on a related or linkage path of one of `rrs`. */
  predicate OnRelationshipPaths(table: seq<Binding>, member: seq<Segment>, rrs: seq<RoutedRelationship>) {
    forall i :: 0 <= i < |table| ==> OnRelationshipPath(member, rrs, table[i].path)
  }

  lemma OnRelationshipPathsAppend(a: seq<Binding>, b: seq<Binding>, member: seq<Segment>, rrs: seq<RoutedRelationship>)
    requires OnRelationshipPaths(a, member, rrs) && OnRelationshipPaths(b, member, rrs)
    ensures OnRelationshipPaths(a + b, member, rrs)
  {
    forall i | 0 <= i < |a + b| ensures OnRelationshipPath(member, rrs, (a + b)[i].path) {
      if i < |a| {
        assert (a + b)[i] == a[i];
      } else {
        assert (a + b)[i] == b[i - |a|];
      }
    }
  }

  lemma RelatedOnPaths(infl: Inflector, d: Descriptor, member: seq<Segment>, rrs: seq<RoutedRelationship>)
    ensures OnRelationshipPaths(RelatedRoutes(infl, d, member, rrs), member, rrs)
  {
    var bs := RelatedRoutes(infl, d, member, rrs);
    forall i | 0 <= i < |bs| ensures OnRelationshipPath(member, rrs, bs[i].path) {
      assert RelatedPath(member, rrs[i].rel) == bs[i].path;
    }
  }

  lemma LinkageOnPaths(infl: Inflector, d: Descriptor, member: seq<Segment>, rrs: seq<RoutedRelationship>)
    ensures OnRelationshipPaths(RelationshipRoutes(infl, d, member, rrs), member, rrs)
  {
    var bs := RelationshipRoutes(infl, d, member, rrs);
    RelationshipRoutesPaths(infl, d, member, rrs);
    forall i | 0 <= i < |bs| ensures OnRelationshipPath(member, rrs, bs[i].path) {
      assert OnLinkagePath(member, rrs, bs[i].path);
      var k :| 0 <= k < |rrs| && RelationshipPath(member, rrs[k].rel) == bs[i].path;
    }
  }

  lemma AddedRoutesOnPaths(infl: Inflector, d: Descriptor, member: seq<Segment>)
    ensures OnRelationshipPaths(AddResourceRelationships(infl, d, member).bindings, member, d.relationships)
  {
    var rrs := d.relationships;
    if |rrs| > 0 {
      RelatedOnPaths(infl, d, member, rrs);
      LinkageOnPaths(infl, d, member, rrs);
      OnRelationshipPathsAppend(RelatedRoutes(infl, d, member, rrs), RelationshipRoutes(infl, d, member, rrs), member, rrs);
    }
  }

  /** With distinct path names, the routes of all relationships bind no verb and path twice. */
  lemma AddedRoutesUnique(infl: Inflector, d: Descriptor, member: seq<Segment>)
    requires DistinctPathNames(d.relationships)
    ensures UniqueBindings(AddResourceRelationships(infl, d, member).bindings)
  {
    var rrs := d.relationships;
    if |rrs| > 0 {
      var related := RelatedRoutes(infl, d, member, rrs);
      var linkage := RelationshipRoutes(infl, d, member, rrs);
      RelatedRoutesUnique(infl, d, member, rrs);
      RelationshipRoutesUnique(infl, d, member, rrs);
      assert forall j :: 0 <= j < |linkage| ==> |linkage[j].path| == |member| + 2 by {
        RelationshipRoutesPaths(infl, d, member, rrs);
        forall j | 0 <= j < |linkage| ensures |linkage[j].path| == |member| + 2 {
          assert OnLinkagePath(member, rrs, linkage[j].path);
          var k :| 0 <= k < |rrs| && RelationshipPath(member, rrs[k].rel) == linkage[j].path;
        }
      }
      UniqueAppendByLength(related, linkage, |member| + 1);
    }
  }

  /** Every related route lies strictly below the member path. */
  lemma RelatedBelow(infl: Inflector, d: Descriptor, member: seq<Segment>, rrs: seq<RoutedRelationship>)
    ensures Below(RelatedRoutes(infl, d, member, rrs), member)
  {
    var bs := RelatedRoutes(infl, d, member, rrs);
    forall i | 0 <= i < |bs| ensures |bs[i].path| > |member| && bs[i].path[..|member|] == member {
      assert bs[i].path == member + [Lit(PathName(rrs[i].rel))];
    }
  }

  /** Every linkage route lies strictly below the member path. */
  lemma LinkageBelow(infl: Inflector, d: Descriptor, member: seq<Segment>, rrs: seq<RoutedRelationship>)
    ensures Below(RelationshipRoutes(infl, d, member, rrs), member)
  {
    var bs := RelationshipRoutes(infl, d, member, rrs);
    RelationshipRoutesPaths(infl, d, member, rrs);
    forall i | 0 <= i < |bs| ensures |bs[i].path| > |member| && bs[i].path[..|member|] == member {
      assert OnLinkagePath(member, rrs, bs[i].path);
      var k :| 0 <= k < |rrs| && RelationshipPath(member, rrs[k].rel) == bs[i].path;
      assert bs[i].path == member + [Lit("relationships"), Lit(PathName(rrs[k].rel))];
    }
  }
}

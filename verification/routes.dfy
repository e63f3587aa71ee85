/**
 The routing vocabulary: verbs, path patterns, handlers and the bindings a
 resource declares, plus how a request finds its handler in a route table
 (the first binding for its verb and path; 405 when only other verbs are bound
 to the path; 404 when nothing is).
 */
module Routes {
  import opened JsonApi

  datatype Verb = Get | Post | Patch | Delete

  /** A path segment: fixed text, or the `:id` route parameter. */
  datatype Segment = Lit(text: string) | IdParam

  /** A route's body: `process_request(action, options)` or `forbidden_operation`. */
  datatype Handler = Process(action: Action, options: Params) | ForbiddenHandler

  datatype Binding = Binding(verb: Verb, path: seq<Segment>, handler: Handler)

  datatype Dispatch = Matched(handler: Handler) | MethodNotAllowed | NotFound

  const AllVerbs: set<Verb> := {Get, Post, Patch, Delete}

  /** The handlers bound to `verb` on `path`, in declaration order. */
  function HandlersAt(table: seq<Binding>, verb: Verb, path: seq<Segment>): (hs: seq<Handler>)
    ensures |hs| <= |table|
    decreases |table|
  {
    if |table| == 0 then []
    else
      (if table[0].verb == verb && table[0].path == path then [table[0].handler] else [])
      + HandlersAt(table[1..], verb, path)
  }

  /** The verbs bound on `path`. */
  function BoundVerbs(table: seq<Binding>, path: seq<Segment>): set<Verb> {
    set v | v in AllVerbs && |HandlersAt(table, v, path)| > 0
  }

  /** What a request with `verb` on `path` reaches. */
  function DispatchOf(table: seq<Binding>, verb: Verb, path: seq<Segment>): (r: Dispatch)
    ensures r.Matched? <==> |HandlersAt(table, verb, path)| > 0
    ensures r.Matched? ==> r.handler == HandlersAt(table, verb, path)[0]
    ensures r.MethodNotAllowed? <==> verb !in BoundVerbs(table, path) && BoundVerbs(table, path) != {}
    ensures r.NotFound? <==> BoundVerbs(table, path) == {}
  {
    assert verb in AllVerbs by {
      assert verb.Get? || verb.Post? || verb.Patch? || verb.Delete?;
    }
    var hs := HandlersAt(table, verb, path);
    if |hs| > 0 then Matched(hs[0])
    else if BoundVerbs(table, path) != {} then MethodNotAllowed
    else NotFound
  }

  /** The verbs bound on `path`, read off one verb at a time. */
  lemma BoundVerbsByVerb(table: seq<Binding>, path: seq<Segment>)
    ensures BoundVerbs(table, path)
         == (if |HandlersAt(table, Get, path)| > 0 then {Get} else {})
          + (if |HandlersAt(table, Post, path)| > 0 then {Post} else {})
          + (if |HandlersAt(table, Patch, path)| > 0 then {Patch} else {})
          + (if |HandlersAt(table, Delete, path)| > 0 then {Delete} else {})
  {
  }

  lemma {:induction false} HandlersAtAppend(a: seq<Binding>, b: seq<Binding>, verb: Verb, path: seq<Segment>)
    ensures HandlersAt(a + b, verb, path) == HandlersAt(a, verb, path) + HandlersAt(b, verb, path)
    decreases |a|
  {
    if |a| == 0 {
      assert a + b == b;
    } else {
      assert (a + b)[1..] == a[1..] + b;
      HandlersAtAppend(a[1..], b, verb, path);
    }
  }

  /** A table with no binding for `verb` on `path` binds nothing there. */
  lemma {:induction false} HandlersAtMissing(table: seq<Binding>, verb: Verb, path: seq<Segment>)
    requires forall i :: 0 <= i < |table| ==> table[i].verb != verb || table[i].path != path
    ensures HandlersAt(table, verb, path) == []
    decreases |table|
  {
    if |table| > 0 {
      HandlersAtMissing(table[1..], verb, path);
    }
  }

  lemma HandlersAtCons(b: Binding, rest: seq<Binding>, verb: Verb, path: seq<Segment>)
    ensures HandlersAt([b] + rest, verb, path)
         == (if b.verb == verb && b.path == path then [b.handler] else []) + HandlersAt(rest, verb, path)
  {
    assert ([b] + rest)[1..] == rest;
  }

  /** No two bindings share a verb and a path. */
  predicate UniqueBindings(table: seq<Binding>) {
    forall i, j :: 0 <= i < j < |table| ==> table[i].verb != table[j].verb || table[i].path != table[j].path
  }

  /** In a table without duplicates, a request matches at most one binding. */
  lemma {:induction false} UniqueBindingsMatchOnce(table: seq<Binding>, verb: Verb, path: seq<Segment>)
    requires UniqueBindings(table)
    ensures |HandlersAt(table, verb, path)| <= 1
    decreases |table|
  {
    if |table| > 0 {
      var tail := table[1..];
      assert UniqueBindings(tail) by {
        forall i, j | 0 <= i < j < |tail| ensures tail[i].verb != tail[j].verb || tail[i].path != tail[j].path {
          assert tail[i] == table[i + 1] && tail[j] == table[j + 1];
        }
      }
      if table[0].verb == verb && table[0].path == path {
        forall i | 0 <= i < |tail| ensures tail[i].verb != verb || tail[i].path != path {
          assert tail[i] == table[i + 1];
        }
        HandlersAtMissing(tail, verb, path);
      } else {
        UniqueBindingsMatchOnce(tail, verb, path);
      }
    }
  }

  /** Bindings `i` and `j` of `table` share a verb and a path. */
  predicate Collide(table: seq<Binding>, i: nat, j: nat) {
    i < j < |table| && table[i].verb == table[j].verb && table[i].path == table[j].path
  }

  /**
   Two bindings that collide in the innermost tail of a table built by two
   concatenations collide in the whole table, which is then not unique.
   */
  lemma CollisionExtends(a: seq<Binding>, b: seq<Binding>, tail: seq<Binding>, i: nat, j: nat)
    requires Collide(tail, i, j)
    ensures Collide(a + (b + tail), |a| + |b| + i, |a| + |b| + j)
    ensures !UniqueBindings(a + (b + tail))
  {
    var c := a + (b + tail);
    assert c[|a| + |b| + i] == tail[i] && c[|a| + |b| + j] == tail[j];
  }

  /** When only binding `k` can be on `(verb, path)`, it alone decides what answers there. */
  lemma HandlersAtOnly(table: seq<Binding>, k: nat, verb: Verb, path: seq<Segment>)
    requires k < |table|
    requires forall i :: 0 <= i < |table| && i != k ==> table[i].verb != verb || table[i].path != path
    ensures HandlersAt(table, verb, path)
         == if table[k].verb == verb && table[k].path == path then [table[k].handler] else []
  {
    var before, at, after := table[..k], [table[k]], table[k + 1..];
    assert table == before + at + after;
    HandlersAtAppend(before + at, after, verb, path);
    HandlersAtAppend(before, at, verb, path);
    HandlersAtCons(table[k], [], verb, path);
    assert at == [table[k]] + [];
    forall i | 0 <= i < |before| ensures before[i].verb != verb || before[i].path != path {
      assert before[i] == table[i];
    }
    forall i | 0 <= i < |after| ensures after[i].verb != verb || after[i].path != path {
      assert after[i] == table[k + 1 + i];
    }
    HandlersAtMissing(before, verb, path);
    HandlersAtMissing(after, verb, path);
  }

  /** Every binding of `table` lies strictly below `prefix`. */
  predicate Below(table: seq<Binding>, prefix: seq<Segment>) {
    forall i :: 0 <= i < |table| ==> |table[i].path| > |prefix| && table[i].path[..|prefix|] == prefix
  }

  lemma BelowAppend(a: seq<Binding>, b: seq<Binding>, prefix: seq<Segment>)
    requires Below(a, prefix) && Below(b, prefix)
    ensures Below(a + b, prefix)
  {
    var c := a + b;
    forall i | 0 <= i < |c| ensures |c[i].path| > |prefix| && c[i].path[..|prefix|] == prefix {
      if i < |a| {
        assert c[i] == a[i];
      } else {
        assert c[i] == b[i - |a|];
      }
    }
  }

  /** What answers in a table of three parts is what answers in each part, in order. */
  lemma HandlersAtLayers(c: seq<Binding>, m: seq<Binding>, rest: seq<Binding>, verb: Verb, path: seq<Segment>)
    ensures HandlersAt(c + (m + rest), verb, path)
         == HandlersAt(c, verb, path) + (HandlersAt(m, verb, path) + HandlersAt(rest, verb, path))
  {
    HandlersAtAppend(m, rest, verb, path);
    HandlersAtAppend(c, m + rest, verb, path);
  }

  /** Two tables without duplicates and without a shared (verb, path) concatenate without duplicates. */
  lemma UniqueBindingsAppend(a: seq<Binding>, b: seq<Binding>)
    requires UniqueBindings(a) && UniqueBindings(b)
    requires forall i, j :: 0 <= i < |a| && 0 <= j < |b| ==> a[i].verb != b[j].verb || a[i].path != b[j].path
    ensures UniqueBindings(a + b)
  {
    var c := a + b;
    forall i, j | 0 <= i < j < |c| ensures c[i].verb != c[j].verb || c[i].path != c[j].path {
      if j < |a| {
        assert c[i] == a[i] && c[j] == a[j];
      } else if i < |a| {
        assert c[i] == a[i] && c[j] == b[j - |a|];
      } else {
        assert c[i] == b[i - |a|] && c[j] == b[j - |a|];
      }
    }
  }

  /** Two tables without duplicates whose paths differ in length concatenate without duplicates. */
  lemma UniqueAppendByLength(a: seq<Binding>, b: seq<Binding>, n: nat)
    requires UniqueBindings(a) && UniqueBindings(b)
    requires forall i :: 0 <= i < |a| ==> |a[i].path| == n
    requires forall j :: 0 <= j < |b| ==> |b[j].path| != n
    ensures UniqueBindings(a + b)
  {
    UniqueBindingsAppend(a, b);
  }

  /**
   Three tables without duplicates, whose paths are of length `n`, of length
   `n + 1` and longer still, concatenate without duplicates.
   */
  lemma UniqueLayers(c: seq<Binding>, m: seq<Binding>, rest: seq<Binding>, n: nat)
    requires UniqueBindings(c) && UniqueBindings(m) && UniqueBindings(rest)
    requires forall i :: 0 <= i < |c| ==> |c[i].path| == n
    requires forall i :: 0 <= i < |m| ==> |m[i].path| == n + 1
    requires forall i :: 0 <= i < |rest| ==> |rest[i].path| > n + 1
    ensures UniqueBindings(c + (m + rest))
  {
    UniqueBindingsAppend(m, rest);
    var tail := m + rest;
    forall i, j | 0 <= i < |c| && 0 <= j < |tail| ensures c[i].verb != tail[j].verb || c[i].path != tail[j].path {
      if j < |m| {
        assert tail[j] == m[j];
      } else {
        assert tail[j] == rest[j - |m|];
      }
    }
    UniqueBindingsAppend(c, tail);
  }
}

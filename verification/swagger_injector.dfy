/**
 * The Swagger injector: it copies the route table into a `paths` object
 * (path -> method -> operation config) and, on a request for the
 * documentation page, merges that object into the Swagger specification
 * found on the response.
 */
module SwaggerInjector {
  import opened Common
  import opened SwaggerGenerator

  /** One path's operations, method name to configuration. */
  type PathItem = map<string, RouteConfig>

  /** The `paths` object of a specification. */
  type Paths = map<string, PathItem>

  /** `res.locals.swaggerSpec`; only its `paths` member, which may be undefined, is read or written. */
  datatype SwaggerSpec = SwaggerSpec(paths: Option<Paths>)

  // ------------------------------------------------------- injectSwaggerDocs

  /** The paths object after the assignments for one path's operations, in their order. */
  function AddOperations(paths: Paths, path: string, methods: seq<(string, RouteConfig)>): Paths {
    if methods == [] then paths
    else
      var n := |methods| - 1;
      var before := AddOperations(paths, path, methods[..n]);
      var item := if path in before then before[path] else map[];
      before[path := item[methods[n].0 := methods[n].1]]
  }

  /** The paths object injectSwaggerDocs returns, built path after path. */
  function InjectedPaths(table: RouteTable): Paths {
    if table == [] then map[]
    else AddOperations(InjectedPaths(table[..|table| - 1]), table[|table| - 1].path, table[|table| - 1].methods)
  }

  /** Does the table hold an operation `verb` on `path`? */
  ghost predicate HasOperation(table: RouteTable, path: string, verb: string) {
    exists i, j :: IsOperation(table, i, j) && table[i].path == path && table[i].methods[j].0 == verb
  }

  /** Does the table hold any operation on `path`? */
  ghost predicate HasPath(table: RouteTable, path: string) {
    exists i, j :: IsOperation(table, i, j) && table[i].path == path
  }

  /** No two operations of the table share a path and a method name, as in an object of objects. */
  ghost predicate DistinctOperations(table: RouteTable) {
    forall i, j, i2, j2 ::
      IsOperation(table, i, j) && IsOperation(table, i2, j2) && (i != i2 || j != j2) ==>
        table[i].path != table[i2].path || table[i].methods[j].0 != table[i2].methods[j2].0
  }

  /** One path's assignments add that path (when it has operations) and its method names, and touch no other path. */
  lemma {:induction false} AddOperationsKeys(paths: Paths, path: string, methods: seq<(string, RouteConfig)>,
                                             p: string, verb: string)
    ensures p in AddOperations(paths, path, methods) <==> p in paths || (p == path && |methods| > 0)
    ensures p != path && p in paths ==> AddOperations(paths, path, methods)[p] == paths[p]
    ensures p in AddOperations(paths, path, methods) ==>
              (verb in AddOperations(paths, path, methods)[p] <==>
                 (p in paths && verb in paths[p]) || (p == path && exists j :: 0 <= j < |methods| && methods[j].0 == verb))
    decreases |methods|
  {
    if methods != [] {
      var n := |methods| - 1;
      var prefix := methods[..n];
      AddOperationsKeys(paths, path, prefix, p, verb);
      assert forall j :: 0 <= j < n ==> prefix[j] == methods[j];
      if p == path && exists j :: 0 <= j < |methods| && methods[j].0 == verb {
        var j :| 0 <= j < |methods| && methods[j].0 == verb;
        if j < n {
          assert prefix[j].0 == verb;
        }
      }
    }
  }

  /** An operation assigned on its path keeps its configuration through the later assignments of other method names. */
  lemma {:induction false} AddOperationsValue(paths: Paths, path: string, methods: seq<(string, RouteConfig)>, j: int)
    requires 0 <= j < |methods|
    requires forall j2 :: 0 <= j2 < |methods| && j2 != j ==> methods[j2].0 != methods[j].0
    ensures path in AddOperations(paths, path, methods)
    ensures methods[j].0 in AddOperations(paths, path, methods)[path]
    ensures AddOperations(paths, path, methods)[path][methods[j].0] == methods[j].1
    decreases |methods|
  {
    var n := |methods| - 1;
    if j < n {
      var prefix := methods[..n];
      assert forall j2 :: 0 <= j2 < n ==> prefix[j2] == methods[j2];
      AddOperationsValue(paths, path, prefix, j);
    }
  }

  /** A path not in a path's assignments keeps its entry. */
  lemma {:induction false} AddOperationsOther(paths: Paths, path: string, methods: seq<(string, RouteConfig)>, p: string)
    requires p in paths
    requires p != path || (forall j :: 0 <= j < |methods| ==> methods[j].0 !in paths[p])
    ensures p in AddOperations(paths, path, methods)
    ensures forall verb :: verb in paths[p] ==>
              verb in AddOperations(paths, path, methods)[p] && AddOperations(paths, path, methods)[p][verb] == paths[p][verb]
    decreases |methods|
  {
    if methods != [] {
      var n := |methods| - 1;
      var prefix := methods[..n];
      assert forall j :: 0 <= j < n ==> prefix[j] == methods[j];
      AddOperationsOther(paths, path, prefix, p);
    }
  }

  /** injectSwaggerDocs has a path key exactly for the paths with at least one operation. */
  lemma {:induction false} InjectedPathsHasPath(table: RouteTable, p: string)
    ensures p in InjectedPaths(table) <==> HasPath(table, p)
    decreases |table|
  {
    if table != [] {
      var n := |table| - 1;
      var prefix := table[..n];
      var last := table[n];
      InjectedPathsHasPath(prefix, p);
      AddOperationsKeys(InjectedPaths(prefix), last.path, last.methods, p, "");
      if HasPath(prefix, p) {
        var i, j :| IsOperation(prefix, i, j) && prefix[i].path == p;
        assert prefix[i] == table[i];
        assert IsOperation(table, i, j);
      }
      if |last.methods| > 0 && p == last.path {
        assert IsOperation(table, n, 0);
      }
      if HasPath(table, p) {
        var i, j :| IsOperation(table, i, j) && table[i].path == p;
        if i < n {
          assert prefix[i] == table[i];
          assert IsOperation(prefix, i, j);
        }
      }
    }
  }

  /** Under each of its path keys, injectSwaggerDocs has exactly the method names of that path's operations. */
  lemma {:induction false} InjectedPathsKeys(table: RouteTable, p: string, verb: string)
    ensures p in InjectedPaths(table) ==> (verb in InjectedPaths(table)[p] <==> HasOperation(table, p, verb))
    decreases |table|
  {
    if table != [] {
      var n := |table| - 1;
      var prefix := table[..n];
      var last := table[n];
      InjectedPathsKeys(prefix, p, verb);
      InjectedPathsHasPath(prefix, p);
      AddOperationsKeys(InjectedPaths(prefix), last.path, last.methods, p, verb);
      if HasOperation(prefix, p, verb) {
        var i, j :| IsOperation(prefix, i, j) && prefix[i].path == p && prefix[i].methods[j].0 == verb;
        assert prefix[i] == table[i];
        assert IsOperation(table, i, j);
      }
      if p == last.path && exists j :: 0 <= j < |last.methods| && last.methods[j].0 == verb {
        var j :| 0 <= j < |last.methods| && last.methods[j].0 == verb;
        assert IsOperation(table, n, j);
      }
      if HasOperation(table, p, verb) {
        var i, j :| IsOperation(table, i, j) && table[i].path == p && table[i].methods[j].0 == verb;
        if i < n {
          assert prefix[i] == table[i];
          assert IsOperation(prefix, i, j);
        }
      }
    }
  }

  /** With distinct operations, injectSwaggerDocs holds each operation's configuration under its path and method name. */
  lemma {:induction false} InjectedPathsValue(table: RouteTable, i: int, j: int)
    requires DistinctOperations(table)
    requires IsOperation(table, i, j)
    ensures table[i].path in InjectedPaths(table)
    ensures table[i].methods[j].0 in InjectedPaths(table)[table[i].path]
    ensures InjectedPaths(table)[table[i].path][table[i].methods[j].0] == table[i].methods[j].1
    decreases |table|
  {
    var n := |table| - 1;
    var prefix := table[..n];
    var last := table[n];
    assert forall j2 :: 0 <= j2 < |last.methods| ==> IsOperation(table, n, j2);
    if i == n {
      AddOperationsValue(InjectedPaths(prefix), last.path, last.methods, j);
    } else {
      assert prefix[i] == table[i];
      assert forall i1, j1 :: IsOperation(prefix, i1, j1) ==> prefix[i1] == table[i1] && IsOperation(table, i1, j1);
      InjectedPathsValue(prefix, i, j);
      var paths := InjectedPaths(prefix);
      var p := table[i].path;
      if p == last.path {
        forall j2 | 0 <= j2 < |last.methods|
          ensures last.methods[j2].0 !in paths[p]
        {
          InjectedPathsKeys(prefix, p, last.methods[j2].0);
        }
      }
      AddOperationsOther(paths, last.path, last.methods, p);
    }
  }

  lemma AddOperationsStep(paths: Paths, path: string, methods: seq<(string, RouteConfig)>, j: int)
    requires 0 <= j < |methods|
    ensures AddOperations(paths, path, methods[..j + 1])
            == var before := AddOperations(paths, path, methods[..j]);
               var item := if path in before then before[path] else map[];
               before[path := item[methods[j].0 := methods[j].1]]
  {
    assert methods[..j + 1][..j] == methods[..j];
  }

  lemma InjectedPathsStep(table: RouteTable, i: int)
    requires 0 <= i < |table|
    ensures InjectedPaths(table[..i + 1]) == AddOperations(InjectedPaths(table[..i]), table[i].path, table[i].methods)
  {
    assert table[..i + 1][..i] == table[..i];
  }

  /** injectSwaggerDocs: one assignment per operation, creating the path's object on first use. */
  method InjectSwaggerDocs(table: RouteTable) returns (paths: Paths)
    ensures paths == InjectedPaths(table)
  {
    paths := map[];
    var i := 0;
    while i < |table|
      invariant 0 <= i <= |table|
      invariant paths == InjectedPaths(table[..i])
    {
      var entry := table[i];
      ghost var before := paths;
      var j := 0;
      while j < |entry.methods|
        invariant 0 <= j <= |entry.methods|
        invariant paths == AddOperations(before, entry.path, entry.methods[..j])
      {
        var (verb, config) := entry.methods[j];
        if entry.path !in paths {
          paths := paths[entry.path := map[]];
        }
        paths := paths[entry.path := paths[entry.path][verb := config]];
        AddOperationsStep(before, entry.path, entry.methods, j);
        j := j + 1;
      }
      assert entry.methods[..j] == entry.methods;
      InjectedPathsStep(table, i);
      i := i + 1;
    }
    assert table[..i] == table;
  }

  // --------------------------------------------------------- swaggerInjector

  /** The two request paths of the documentation page. */
  predicate IsDocsPath(path: string) {
    path == "/api-docs" || path == "/api-docs/"
  }

  /**
   * `{...existing, ...injected}`: every existing path is kept unless the
   * injected object has it, in which case the injected entry replaces it
   * whole; undefined existing paths spread as nothing.
   */
  function MergePaths(existing: Option<Paths>, injected: Paths): (r: Paths)
    ensures forall p :: p in r <==> (existing.Some? && p in existing.value) || p in injected
    ensures forall p :: p in injected ==> r[p] == injected[p]
    ensures forall p :: p !in injected && existing.Some? && p in existing.value ==> r[p] == existing.value[p]
  {
    (if existing.Some? then existing.value else map[]) + injected
  }

  /** One request passing through the middleware: its path, the response's Swagger specification, and the calls of `next`. */
  class Exchange {
    const requestPath: string
    var swaggerSpec: Option<SwaggerSpec>
    var nextCalls: nat

    constructor(requestPath: string, swaggerSpec: Option<SwaggerSpec>)
      ensures this.requestPath == requestPath && this.swaggerSpec == swaggerSpec && nextCalls == 0
    {
      this.requestPath := requestPath;
      this.swaggerSpec := swaggerSpec;
      nextCalls := 0;
    }

    /**
     * swaggerInjector: on the documentation page with a specification present,
     * the table's paths are merged into the specification's; in every case
     * `next` is called exactly once.
     */
    method SwaggerInjector(table: RouteTable)
      modifies this
      ensures nextCalls == old(nextCalls) + 1
      ensures !IsDocsPath(requestPath) || old(swaggerSpec).None? ==> swaggerSpec == old(swaggerSpec)
      ensures IsDocsPath(requestPath) && old(swaggerSpec).Some? ==>
                swaggerSpec == Some(old(swaggerSpec).value.(paths := Some(MergePaths(old(swaggerSpec).value.paths, InjectedPaths(table)))))
    {
      if requestPath == "/api-docs" || requestPath == "/api-docs/" {
        var additionalPaths := InjectSwaggerDocs(table);
        if swaggerSpec.Some? {
          var existing := if swaggerSpec.value.paths.Some? then swaggerSpec.value.paths.value else map[];
          swaggerSpec := Some(swaggerSpec.value.(paths := Some(existing + additionalPaths)));
        }
      }
      nextCalls := nextCalls + 1;
    }
  }
}

/** The set logic of the graph builders `class_tree_graph`, `import_graph` and
    `call_graph`: which docs become nodes and which pairs of them become
    edges.  Docs are identified by number; a doc attribute that lists other
    docs (`subclasses`, `bases`, the profiler's callers and callees) is an
    adjacency map, in which a doc without an entry has the attribute None or
    UNKNOWN. */
module GraphSets {
  import opened Wrappers

  type Adjacency = map<nat, seq<nat>>

  /** The neighbours of x: its list, or none when the attribute is unknown. */
  function Next(g: Adjacency, x: nat): seq<nat> {
    if x in g then g[x] else []
  }

  function Elems(s: seq<nat>): set<nat> {
    set x | x in s
  }

  // ------------------------------------------------------------ closures

  /** Every neighbour of a member is a member. */
  ghost predicate Closed(g: Adjacency, s: set<nat>) {
    forall x: nat, y: nat :: x in s && y in Next(g, x) ==> y in s
  }

  /** s is the closure of the roots: it holds them, it is closed, and it lies
      inside every closed set that holds them. */
  ghost predicate IsClosure(g: Adjacency, roots: set<nat>, s: set<nat>) {
    roots <= s && Closed(g, s) &&
    forall t :: roots <= t && Closed(g, t) ==> s <= t
  }

  /** The closure is determined by the graph and the roots. */
  lemma ClosureUnique(g: Adjacency, roots: set<nat>, s1: set<nat>, s2: set<nat>)
    requires IsClosure(g, roots, s1) && IsClosure(g, roots, s2)
    ensures s1 == s2
  {
    assert s1 <= s2;
    assert s2 <= s1;
  }

  /** The ids a closure can reach: the roots and every listed neighbour. */
  ghost function Universe(g: Adjacency, roots: set<nat>): set<nat> {
    roots + set x, y | x in g && y in g[x] :: y
  }

  lemma NextInUniverse(g: Adjacency, roots: set<nat>, x: nat, y: nat)
    requires y in Next(g, x)
    ensures y in Universe(g, roots)
  {
  }

  /** One step of the queue: the neighbours not yet found are appended to the
      queue and added to the found set. */
  method Visit(found: set<nat>, queue: seq<nat>, succ: seq<nat>) returns (found': set<nat>, queue': seq<nat>)
    ensures found' == found + Elems(succ)
    ensures |queue'| >= |queue| && queue'[..|queue|] == queue
    ensures forall y: nat :: y in queue'[|queue|..] <==> y in succ && y !in found
    ensures found' == found ==> queue' == queue
  {
    found', queue' := found, queue;
    for j := 0 to |succ|
      invariant found' == found + Elems(succ[..j])
      invariant |queue'| >= |queue| && queue'[..|queue|] == queue
      invariant forall y: nat :: y in queue'[|queue|..] <==> y in succ[..j] && y !in found
      invariant found' == found ==> queue' == queue
    {
      assert succ[..j + 1] == succ[..j] + [succ[j]];
      if succ[j] !in found' {
        assert (queue' + [succ[j]])[|queue|..] == queue'[|queue|..] + [succ[j]];
        queue' := queue' + [succ[j]];
      }
      found' := found' + {succ[j]};
    }
    assert succ[..|succ|] == succ;
  }

  /** Processing a found member adds its neighbours and keeps the found set
      inside every closed set that holds the roots. */
  lemma VisitStaysLeast(g: Adjacency, roots: set<nat>, before: set<nat>, x: nat, after: set<nat>)
    requires x in before && after == before + Elems(Next(g, x))
    requires forall t :: roots <= t && Closed(g, t) ==> before <= t
    ensures forall t :: roots <= t && Closed(g, t) ==> after <= t
  {
  }

  lemma {:induction false} SubsetNotLarger(a: set<nat>, b: set<nat>)
    requires a <= b
    ensures |a| <= |b|
    decreases a
  {
    if a != {} {
      var y :| y in a;
      SubsetNotLarger(a - {y}, b - {y});
    }
  }

  lemma StrictSubsetSmaller(a: set<nat>, b: set<nat>)
    requires a < b
    ensures |a| < |b|
  {
    var y :| y in b && y !in a;
    SubsetNotLarger(a, b - {y});
  }

  /** A queue whose every member has had its neighbours found is closed. */
  lemma ExploredClosed(g: Adjacency, found: set<nat>, queue: seq<nat>)
    requires found == Elems(queue)
    requires forall k :: 0 <= k < |queue| ==> Elems(Next(g, queue[k])) <= found
    ensures Closed(g, found)
  {
    forall x: nat, y: nat | x in found && y in Next(g, x) ensures y in found {
      var k :| 0 <= k < |queue| && queue[k] == x;
    }
  }

  /** What holds of the queue before each visit: the found set is the
      queue's members, drawn from the universe; the members already visited
      have their neighbours found; and the found set lies inside every closed
      set that holds the roots. */
  ghost predicate ClosureInvariant(g: Adjacency, roots: set<nat>, found: set<nat>, queue: seq<nat>, i: nat) {
    i <= |queue| && found == Elems(queue) &&
    roots <= found <= Universe(g, roots) &&
    (forall k :: 0 <= k < i ==> Elems(Next(g, queue[k])) <= found) &&
    (forall t :: roots <= t && Closed(g, t) ==> found <= t)
  }

  lemma QueueMembers(found: set<nat>, queue: seq<nat>, found': set<nat>, queue': seq<nat>, succ: seq<nat>)
    requires found == Elems(queue) && found' == found + Elems(succ)
    requires |queue'| >= |queue| && queue'[..|queue|] == queue
    requires forall y: nat :: y in queue'[|queue|..] <==> y in succ && y !in found
    ensures found' == Elems(queue')
  {
    assert queue' == queue + queue'[|queue|..];
  }

  lemma ExploredStep(g: Adjacency, found: set<nat>, queue: seq<nat>, i: nat, found': set<nat>, queue': seq<nat>)
    requires i < |queue| <= |queue'| && queue'[..|queue|] == queue
    requires forall k :: 0 <= k < i ==> Elems(Next(g, queue[k])) <= found
    requires found' == found + Elems(Next(g, queue[i]))
    ensures forall k :: 0 <= k < i + 1 ==> Elems(Next(g, queue'[k])) <= found'
  {
    forall k | 0 <= k < i + 1 ensures Elems(Next(g, queue'[k])) <= found' {
      assert queue'[k] == queue[k];
    }
  }

  lemma UniverseStep(g: Adjacency, roots: set<nat>, found: set<nat>, x: nat, found': set<nat>)
    requires found <= Universe(g, roots) && found' == found + Elems(Next(g, x))
    ensures found' <= Universe(g, roots)
  {
    forall y | y in Next(g, x) ensures y in Universe(g, roots) {
      NextInUniverse(g, roots, x, y);
    }
  }

  /** Visiting `queue[i]` as `Visit` does keeps the invariant, and either
      finds something new or leaves the queue as it was. */
  lemma VisitKeepsInvariant(g: Adjacency, roots: set<nat>, found: set<nat>, queue: seq<nat>, i: nat,
                            found': set<nat>, queue': seq<nat>)
    requires ClosureInvariant(g, roots, found, queue, i) && i < |queue|
    requires found' == found + Elems(Next(g, queue[i]))
    requires |queue'| >= |queue| && queue'[..|queue|] == queue
    requires forall y: nat :: y in queue'[|queue|..] <==> y in Next(g, queue[i]) && y !in found
    requires found' == found ==> queue' == queue
    ensures ClosureInvariant(g, roots, found', queue', i + 1)
    ensures |Universe(g, roots) - found'| < |Universe(g, roots) - found| || (found' == found && queue' == queue)
  {
    QueueMembers(found, queue, found', queue', Next(g, queue[i]));
    UniverseStep(g, roots, found, queue[i], found');
    ExploredStep(g, found, queue, i, found', queue');
    VisitStaysLeast(g, roots, found, queue[i], found');
    if found' != found {
      StrictSubsetSmaller(Universe(g, roots) - found', Universe(g, roots) - found);
    }
  }

  /** `queue = list(roots); for x in queue: queue.extend(next(x))`, with the
      found set as the visited check. */
  method Closure(g: Adjacency, roots: seq<nat>) returns (found: set<nat>)
    ensures IsClosure(g, Elems(roots), found)
  {
    ghost var U := Universe(g, Elems(roots));
    found := Elems(roots);
    var queue := roots;
    var i := 0;
    while i < |queue|
      invariant ClosureInvariant(g, Elems(roots), found, queue, i)
      decreases |U - found|, |queue| - i
    {
      ghost var found0, queue0 := found, queue;
      found, queue := Visit(found, queue, Next(g, queue[i]));
      VisitKeepsInvariant(g, Elems(roots), found0, queue0, i, found, queue);
      i := i + 1;
    }
    ExploredClosed(g, found, queue);
  }

  // ---------------------------------------------------------- class tree

  /** `class_tree_graph`'s classes: the closure of the given classes through
      `subclasses` and through `bases`, without the docs that are not classes
      and without `object` (`kept`). */
  method ClassTreeClasses(subclasses: Adjacency, bases: Adjacency, roots: seq<nat>, kept: nat -> bool)
    returns (classes: set<nat>, down: set<nat>, up: set<nat>)
    ensures IsClosure(subclasses, Elems(roots), down) && IsClosure(bases, Elems(roots), up)
    ensures forall c: nat :: c in classes <==> (c in down || c in up) && kept(c)
  {
    down := Closure(subclasses, roots);
    up := Closure(bases, roots);
    classes := set c | c in down + up && kept(c);
  }

  /** The pairs (a, b) with a in `from`, b a neighbour of a in `within`. */
  ghost predicate LinkedPair(g: Adjacency, from: set<nat>, within: set<nat>, a: nat, b: nat) {
    a in from && b in Next(g, a) && b in within
  }

  /** `for a in from: for b in next(a): if b in nodes: edges.add((a, b))`
      (the caller also checks `a in nodes`, which holds for every a here). */
  method LinkedPairs(g: Adjacency, from: set<nat>, within: set<nat>) returns (pairs: set<(nat, nat)>)
    ensures forall a: nat, b: nat :: (a, b) in pairs <==> LinkedPair(g, from, within, a, b)
  {
    pairs := {};
    var todo := from;
    while todo != {}
      invariant todo <= from
      invariant forall a: nat, b: nat :: (a, b) in pairs <==> LinkedPair(g, from - todo, within, a, b)
      decreases todo
    {
      var a :| a in todo;
      var succ := Next(g, a);
      for j := 0 to |succ|
        invariant forall x: nat, b: nat :: (x, b) in pairs <==>
                    LinkedPair(g, from - todo, within, x, b) || (x == a && b in succ[..j] && b in within)
      {
        assert succ[..j + 1] == succ[..j] + [succ[j]];
        if succ[j] in within {
          pairs := pairs + {(a, succ[j])};
        }
      }
      assert succ[..|succ|] == succ;
      todo := todo - {a};
    }
  }

  /** `class_tree_graph`'s edges: a class to each of its subclasses, both
      kept.  The loop iterates `cls.subclasses` without the guard the
      closure has, so a drawn class whose subclasses are None or UNKNOWN
      raises a TypeError. */
  method ClassTreeEdges(subclasses: Adjacency, classes: set<nat>) returns (r: Result<set<(nat, nat)>>)
    ensures r.Failure? <==> exists a :: a in classes && a !in subclasses
    ensures r.Failure? ==> r.error == TypeError
    ensures r.Success? ==>
              forall a: nat, b: nat :: (a, b) in r.value <==> a in classes && b in classes && b in Next(subclasses, a)
  {
    if classes - subclasses.Keys != {} {
      var a :| a in classes - subclasses.Keys;
      return Failure(TypeError);
    }
    assert forall a :: a in classes ==> a in subclasses.Keys by {
      forall a | a in classes ensures a in subclasses.Keys {
        assert a !in classes - subclasses.Keys;
      }
    }
    var edges := LinkedPairs(subclasses, classes, classes);
    r := Success(edges);
  }

  // -------------------------------------------------------------- imports

  /** The module an imported name refers to: the longest prefix
      `name[:i]`, for i from `len(name)` down to 1, at which the doc index
      holds a module (`moduleAt`). */
  function ImportedModule(moduleAt: seq<string> -> Option<nat>, name: seq<string>, n: nat): Option<nat>
    requires n <= |name|
  {
    if n == 0 then None
    else if moduleAt(name[..n]).Some? then moduleAt(name[..n])
    else ImportedModule(moduleAt, name, n - 1)
  }

  /** The resolved module sits at the longest prefix holding one, and no
      module at all means no prefix holds one. */
  lemma {:induction false} ImportedModuleLongest(moduleAt: seq<string> -> Option<nat>, name: seq<string>, n: nat)
    requires n <= |name|
    ensures ImportedModule(moduleAt, name, n).None? <==> forall i :: 1 <= i <= n ==> moduleAt(name[..i]).None?
    ensures ImportedModule(moduleAt, name, n).Some? ==>
              exists i :: 1 <= i <= n && moduleAt(name[..i]) == ImportedModule(moduleAt, name, n) &&
                          forall j :: i < j <= n ==> moduleAt(name[..j]).None?
  {
    if n > 0 && moduleAt(name[..n]).None? {
      ImportedModuleLongest(moduleAt, name, n - 1);
      var r := ImportedModule(moduleAt, name, n - 1);
      if r.Some? {
        var i :| 1 <= i <= n - 1 && moduleAt(name[..i]) == r &&
                 forall j :: i < j <= n - 1 ==> moduleAt(name[..j]).None?;
        assert forall j :: i < j <= n ==> moduleAt(name[..j]).None?;
      }
    }
  }

  /** `for i in range(len(var_name), 0, -1): ... if isinstance(val_doc, ModuleDoc): ... break`. */
  method ImportSource(moduleAt: seq<string> -> Option<nat>, name: seq<string>) returns (r: Option<nat>)
    ensures r == ImportedModule(moduleAt, name, |name|)
  {
    var i: nat := |name|;
    while i > 0
      invariant i <= |name|
      invariant ImportedModule(moduleAt, name, |name|) == ImportedModule(moduleAt, name, i)
    {
      var doc := moduleAt(name[..i]);
      if doc.Some? {
        return doc;
      }
      i := i - 1;
    }
    return None;
  }

  /** An import edge runs from the module an imported name resolves to, to
      the importing module, when both are nodes of the graph. */
  ghost predicate ImportEdge(dsts: seq<nat>, modules: seq<nat>, imports: map<nat, seq<seq<string>>>,
                             moduleAt: seq<string> -> Option<nat>, src: nat, dst: nat)
  {
    dst in dsts && dst in imports && src in modules &&
    exists name :: name in imports[dst] && ImportedModule(moduleAt, name, |name|) == Some(src)
  }

  /** `import_graph`'s edge set; a module without an entry in `imports` has
      `imports` None or UNKNOWN and is skipped. */
  method ImportEdges(modules: seq<nat>, imports: map<nat, seq<seq<string>>>, moduleAt: seq<string> -> Option<nat>)
    returns (edges: set<(nat, nat)>)
    ensures forall s: nat, d: nat :: (s, d) in edges <==> ImportEdge(modules, modules, imports, moduleAt, s, d)
  {
    edges := {};
    for k := 0 to |modules|
      invariant forall s: nat, d: nat :: (s, d) in edges <==> ImportEdge(modules[..k], modules, imports, moduleAt, s, d)
    {
      var dst := modules[k];
      assert modules[..k + 1] == modules[..k] + [dst];
      if dst in imports {
        var names := imports[dst];
        for n := 0 to |names|
          invariant forall s: nat, d: nat :: (s, d) in edges <==>
                      (ImportEdge(modules[..k], modules, imports, moduleAt, s, d)) ||
                      (d == dst && s in modules &&
                       exists name :: name in names[..n] && ImportedModule(moduleAt, name, |name|) == Some(s))
        {
          assert names[..n + 1] == names[..n] + [names[n]];
          var src := ImportSource(moduleAt, names[n]);
          if src.Some? && src.value in modules {
            edges := edges + {(src.value, dst)};
          }
        }
        assert names[..|names|] == names;
      }
    }
    assert modules[..|modules|] == modules;
  }

  // ----------------------------------------------------------- call graph

  /** The api docs a call graph is asked for.  A namespace is given by the
      values of its variables. */
  datatype ApiDoc =
    | RoutineDoc(id: nat)
    | NamespaceDoc(variableValues: seq<ApiDoc>)
    | VariableDoc(value: ApiDoc)
    | OtherDoc

  /** The routines among the values of a namespace's variables. */
  function RoutinesIn(values: seq<ApiDoc>): (r: seq<nat>)
    ensures forall f: nat :: f in r <==> exists i :: 0 <= i < |values| && values[i] == RoutineDoc(f)
  {
    if values == [] then []
    else
      var last := values[|values| - 1];
      RoutinesIn(values[..|values| - 1]) + (if last.RoutineDoc? then [last.id] else [])
  }

  /** The functions one requested doc contributes: a variable stands for its
      value; a routine is itself; a namespace gives its routine values. */
  function Contributed(doc: ApiDoc): seq<nat> {
    var v := if doc.VariableDoc? then doc.value else doc;
    match v
    case RoutineDoc(id) => [id]
    case NamespaceDoc(values) => RoutinesIn(values)
    case _ => []
  }

  /** The lists `g` gives for the items, concatenated in order. */
  function ConcatMap<T>(xs: seq<T>, g: T -> seq<nat>): seq<nat> {
    if xs == [] then [] else ConcatMap(xs[..|xs| - 1], g) + g(xs[|xs| - 1])
  }

  lemma {:induction false} ConcatMapMembers<T>(xs: seq<T>, g: T -> seq<nat>, f: nat)
    ensures f in ConcatMap(xs, g) <==> exists i :: 0 <= i < |xs| && f in g(xs[i])
  {
    if xs != [] {
      var init := xs[..|xs| - 1];
      ConcatMapMembers(init, g, f);
      assert forall i :: 0 <= i < |init| ==> init[i] == xs[i];
    }
  }

  /** The functions the requested docs contribute, in order. */
  function Requested(docs: seq<ApiDoc>): seq<nat> {
    ConcatMap(docs, Contributed)
  }

  /** A function is requested exactly when one of the docs contributes it. */
  lemma RequestedMembers(docs: seq<ApiDoc>, f: nat)
    ensures f in Requested(docs) <==> exists i :: 0 <= i < |docs| && f in Contributed(docs[i])
  {
    ConcatMapMembers(docs, Contributed, f);
  }

  /** The loop that fills `functions`. */
  method RequestedFunctions(docs: seq<ApiDoc>) returns (functions: seq<nat>)
    ensures functions == Requested(docs)
  {
    functions := [];
    for k := 0 to |docs|
      invariant functions == Requested(docs[..k])
    {
      assert docs[..k + 1][..k] == docs[..k];
      functions := functions + Contributed(docs[k]);
    }
    assert docs[..|docs|] == docs;
  }

  /** `[f for f in functions if f in callers or f in callees]`. */
  function Profiled(functions: seq<nat>, callers: Adjacency, callees: Adjacency): (r: seq<nat>)
    ensures |r| <= |functions|
    ensures forall f: nat :: f in r <==> f in functions && (f in callers || f in callees)
  {
    if functions == [] then []
    else
      var f := functions[|functions| - 1];
      Profiled(functions[..|functions| - 1], callers, callees) + (if f in callers || f in callees then [f] else [])
  }

  /** `func_set`: the selected functions, with their callers and callees when
      the options ask for them. */
  ghost predicate InFuncSet(functions: seq<nat>, callers: Adjacency, callees: Adjacency,
                            addCallers: bool, addCallees: bool, x: nat)
  {
    x in functions ||
    ((addCallers || addCallees) &&
     exists f: nat :: f in functions && ((addCallers && x in Next(callers, f)) || (addCallees && x in Next(callees, f))))
  }

  method FuncSet(functions: seq<nat>, callers: Adjacency, callees: Adjacency, addCallers: bool, addCallees: bool)
    returns (funcSet: set<nat>)
    ensures forall x: nat :: x in funcSet <==> InFuncSet(functions, callers, callees, addCallers, addCallees, x)
  {
    funcSet := Elems(functions);
    if addCallers || addCallees {
      for k := 0 to |functions|
        invariant forall x: nat :: x in funcSet <==>
                    x in functions ||
                    exists f: nat :: f in functions[..k] &&
                                ((addCallers && x in Next(callers, f)) || (addCallees && x in Next(callees, f)))
      {
        assert functions[..k + 1] == functions[..k] + [functions[k]];
        if addCallers {
          funcSet := funcSet + Elems(Next(callers, functions[k]));
        }
        if addCallees {
          funcSet := funcSet + Elems(Next(callees, functions[k]));
        }
      }
      assert functions[..|functions|] == functions;
    }
  }

  /** A call edge runs from a caller to a selected function, or from a
      selected function to a callee, when the other end is a node. */
  ghost predicate CallEdge(functions: seq<nat>, callers: Adjacency, callees: Adjacency, nodes: set<nat>, a: nat, b: nat) {
    (b in functions && a in Next(callers, b) && a in nodes) ||
    (a in functions && b in Next(callees, a) && b in nodes)
  }

  method CallEdges(functions: seq<nat>, callers: Adjacency, callees: Adjacency, nodes: set<nat>)
    returns (edges: set<(nat, nat)>)
    ensures forall a: nat, b: nat :: (a, b) in edges <==> CallEdge(functions, callers, callees, nodes, a, b)
  {
    edges := {};
    for k := 0 to |functions|
      invariant forall a: nat, b: nat :: (a, b) in edges <==> CallEdge(functions[..k], callers, callees, nodes, a, b)
    {
      var f := functions[k];
      assert functions[..k + 1] == functions[..k] + [f];
      var ins := LinkedPairs(callers, {f}, nodes);
      var outs := LinkedPairs(callees, {f}, nodes);
      var flipped := set p | p in ins :: (p.1, p.0);
      forall a: nat, b: nat | (b, a) in ins ensures (a, b) in flipped {
        var p := (b, a);
        assert p in ins;
      }
      edges := edges + flipped + outs;
    }
    assert functions[..|functions|] == functions;
  }

  /** The profiler's data: who calls each function, and whom it calls. */
  datatype Profile = Profile(callers: Adjacency, callees: Adjacency)

  /** What `call_graph` puts in its graph; without profiling data it warns
      and returns an empty graph. */
  datatype CallGraph = CallGraph(nodes: set<nat>, edges: set<(nat, nat)>, warned: bool)

  method CallGraphSets(docs: seq<ApiDoc>, profile: Option<Profile>, addCallers: bool, addCallees: bool)
    returns (r: CallGraph)
    ensures profile.None? ==> r == CallGraph({}, {}, true)
    ensures profile.Some? ==>
              var functions := Profiled(Requested(docs), profile.value.callers, profile.value.callees);
              !r.warned &&
              (forall x: nat :: x in r.nodes <==>
                 InFuncSet(functions, profile.value.callers, profile.value.callees, addCallers, addCallees, x)) &&
              (forall a: nat, b: nat :: (a, b) in r.edges <==>
                 CallEdge(functions, profile.value.callers, profile.value.callees, r.nodes, a, b))
  {
    if profile.None? {
      return CallGraph({}, {}, true);
    }
    var callers, callees := profile.value.callers, profile.value.callees;
    var requested := RequestedFunctions(docs);
    var functions := Profiled(requested, callers, callees);
    var funcSet := FuncSet(functions, callers, callees, addCallers, addCallees);
    var edges := CallEdges(functions, callers, callees, funcSet);
    return CallGraph(funcSet, edges, false);
  }
}

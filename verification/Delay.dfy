// delay(): the flattened graph becomes jobs, which are performed at once in topological
// order, or stored for the queue.
module Delay {
  import opened Graphs
  import opened Delayables
  import opened Ordering
  import opened Jobs
  import opened JobSafety
  import opened JobRuns
  import opened JobStore

  // ------------------------------------------------------------------ direct execution

  // u is listed before v.
  ghost predicate ListedBefore(order: seq<Vertex>, u: Vertex, v: Vertex) {
    exists i, j :: 0 <= i < j < |order| && order[i] == u && order[j] == v
  }

  lemma ReachableIsListedBefore(g: Links, order: seq<Vertex>, u: Vertex, v: Vertex)
    requires ParentsFirst(g, order) && v in order && Reaches(g, u, v)
    ensures ListedBefore(order, u, v)
  {
    var j :| 0 <= j < |order| && order[j] == v;
    OrderedBeforeDescendants(g, order, u, j);
    var i :| 0 <= i < j && order[..j][i] == u;
    assert order[i] == u;
  }

  lemma SameReachabilityAcyclic(g: Links, h: Links)
    requires forall u, v :: Reaches(g, u, v) <==> Reaches(h, u, v)
    requires Acyclic(h)
    ensures Acyclic(g)
  {
    forall v | v in g ensures !Reaches(g, v, v) {
      if Reaches(h, v, v) {
        var w := FirstStep(h, v, v);
        assert false;
      }
    }
  }

  // Performs the jobs one by one and reports the attempted ones in their order. The first
  // job that raises ends it.
  method ExecuteGraphDirect(f: Forest, start: Vertex, raises: set<Vertex>)
    returns (performed: seq<Vertex>, failed: Option<Vertex>)
    requires Valid(f) && start in f.kind
    ensures NoDup(performed) && forall v :: v in performed ==> v in LeavesOf(f, Component(f, start))
    ensures Attempted(performed, failed, raises)
    ensures var c := Component(f, start);
      KeepsOrder(f, c) && Acyclic(Documented(f, c)) ==>
        && (failed.None? ==> Elems(performed) == LeavesOf(f, c))
        && forall u, v :: Reaches(Documented(f, c), u, v) && v in performed ==> ListedBefore(performed, u, v)
  {
    hide KeepsOrder, Documented, Reaches, Acyclic, IsFlattening, ParentsFirst, Exhausted, BelowCycle;
    ghost var c := Component(f, start);
    var graph := ConnectGraphs(f, start);
    ghost var g := graph.links;
    ComponentCloses(f, start);
    FlatteningIsOnLeaves(f, c, g);
    var order := graph.TopologicalSort();
    OrderOfVertices(g, order);
    DirectOrder(f, c, g, order);
    performed, failed := PerformInOrder(order, raises);
    forall u, v | v in performed && ListedBefore(order, u, v) ensures ListedBefore(performed, u, v) {
      ListedInPrefix(order, |performed|, u, v);
    }
  }

  // The jobs up to the first that raises.
  ghost predicate Attempted(performed: seq<Vertex>, failed: Option<Vertex>, raises: set<Vertex>) {
    && (failed.None? ==> Elems(performed) !! raises)
    && (failed.Some? ==>
          && performed != [] && failed.value == performed[|performed| - 1] && failed.value in raises
          && Elems(performed[..|performed| - 1]) !! raises)
  }

  method PerformInOrder(order: seq<Vertex>, raises: set<Vertex>) returns (performed: seq<Vertex>, failed: Option<Vertex>)
    ensures Attempted(performed, failed, raises)
    ensures |performed| <= |order| && performed == order[..|performed|] && (failed.None? ==> performed == order)
  {
    performed, failed := [], None;
    var i := 0;
    while i < |order|
      invariant 0 <= i <= |order| && performed == order[..i] && failed.None?
      invariant Elems(performed) !! raises
    {
      var delayable := order[i];
      i := i + 1;
      performed := performed + [delayable];
      if delayable in raises {
        assert performed[..|performed| - 1] == order[..i - 1];
        return performed, Some(delayable);
      }
    }
  }

  lemma OrderOfVertices(g: Links, order: seq<Vertex>)
    requires ParentsFirst(g, order)
    ensures NoDup(order) && forall v :: v in order ==> v in g
  {
  }

  lemma ListedInPrefix(order: seq<Vertex>, n: nat, u: Vertex, v: Vertex)
    requires NoDup(order) && n <= |order| && ListedBefore(order, u, v) && v in order[..n]
    ensures ListedBefore(order[..n], u, v)
  {
    var i, j :| 0 <= i < j < |order| && order[i] == u && order[j] == v;
    var k :| 0 <= k < n && order[..n][k] == v;
    assert k == j && order[..n][i] == u;
  }

  lemma DirectOrder(f: Forest, c: set<Vertex>, g: Links, order: seq<Vertex>)
    requires Valid(f) && MentionsClosed(f, c) && IsFlattening(f, c, g) && Closed(g)
    requires ParentsFirst(g, order) && Exhausted(g, order) && g.Keys == LeavesOf(f, c)
    requires Acyclic(g) ==> Elems(order) == g.Keys
    ensures KeepsOrder(f, c) && Acyclic(Documented(f, c)) ==>
      && Elems(order) == LeavesOf(f, c)
      && forall u, v :: Reaches(Documented(f, c), u, v) ==> ListedBefore(order, u, v)
  {
    if KeepsOrder(f, c) && Acyclic(Documented(f, c)) {
      var d := Documented(f, c);
      FlatteningIsExact(f, c, g);
      SameReachabilityAcyclic(g, d);
      hide IsFlattening, MentionsClosed, Documented, KeepsOrder, Reaches;
      forall u, v | Reaches(d, u, v) ensures ListedBefore(order, u, v) {
        var w := LastStep(g, u, v);
        assert v in Elems(order);
        ReachableIsListedBefore(g, order, u, v);
      }
    }
  }

  // ------------------------------------------------------------------ storing the jobs

  // The outcome of delay(): the stored rows, a delayable that got an existing job while
  // nothing was stored, or an error.
  datatype Delayed = Stored(rows: Rows) | Existing(vertex: Vertex) | ExpectingJobs | DependsOnItself

  function Into(edges: set<(Vertex, Vertex)>, v: Vertex): set<Vertex> {
    set e | e in edges && e.1 == v :: e.0
  }

  function OutOf(edges: set<(Vertex, Vertex)>, v: Vertex): set<Vertex> {
    set e | e in edges && e.0 == v :: e.1
  }

  function RowOf(edges: set<(Vertex, Vertex)>, v: Vertex, maxRetries: nat, graph: Option<nat>): Job {
    Job(if Into(edges, v) == {} then Pending else WaitDependencies, 0, maxRetries,
        Into(edges, v), OutOf(edges, v), graph)
  }

  // New jobs with the given dependencies: those without parents are pending.
  function RowsOf(vertices: set<Vertex>, edges: set<(Vertex, Vertex)>, maxRetries: map<Vertex, nat>,
                  graph: Option<nat>): Rows
    requires vertices <= maxRetries.Keys
  {
    map v | v in vertices :: RowOf(edges, v, maxRetries[v], graph)
  }

  function EdgeSet(g: Links): set<(Vertex, Vertex)> {
    set u, v | u in g && v in g[u] :: (u, v)
  }

  // A single job has no graph uuid.
  function GraphUuid(vertices: set<Vertex>, uuid: nat): Option<nat> {
    if |vertices| == 1 then None else Some(uuid)
  }

  // The table right after delay().
  function InitialRows(g: Links, maxRetries: map<Vertex, nat>, uuid: nat): Rows
    requires g.Keys <= maxRetries.Keys
  {
    RowsOf(g.Keys, EdgeSet(g), maxRetries, GraphUuid(g.Keys, uuid))
  }

  lemma IntoGrows(edges: set<(Vertex, Vertex)>, u: Vertex, v: Vertex)
    ensures forall j :: Into(edges + {(u, v)}, j) == Into(edges, j) + if j == v then {u} else {}
    ensures forall j :: OutOf(edges + {(u, v)}, j) == OutOf(edges, j) + if j == u then {v} else {}
  {
    var more := edges + {(u, v)};
    forall j ensures Into(more, j) == Into(edges, j) + if j == v then {u} else {} {
      assert (u, v) in more;
    }
    forall j ensures OutOf(more, j) == OutOf(edges, j) + if j == u then {v} else {} {
      assert (u, v) in more;
    }
  }

  lemma OneMoreRow(vertices: set<Vertex>, edges: set<(Vertex, Vertex)>, maxRetries: map<Vertex, nat>,
                   graph: Option<nat>, u: Vertex, v: Vertex, j: Vertex)
    requires vertices <= maxRetries.Keys && u in vertices && v in vertices && u != v && j in vertices
    ensures DependingRow(RowsOf(vertices, edges, maxRetries, graph), v, {u}, j) ==
            RowOf(edges + {(u, v)}, j, maxRetries[j], graph)
  {
    hide Into, OutOf;
    IntoGrows(edges, u, v);
    if j == v {
      ChildRow(vertices, edges, maxRetries, graph, u, v);
    } else if j == u {
      hide RowsOf;
      RowsAre(vertices, edges, maxRetries, graph, j);
    } else {
      hide RowsOf;
      RowsAre(vertices, edges, maxRetries, graph, j);
    }
  }

  lemma RowsAre(vertices: set<Vertex>, edges: set<(Vertex, Vertex)>, maxRetries: map<Vertex, nat>,
                graph: Option<nat>, j: Vertex)
    requires vertices <= maxRetries.Keys && j in vertices
    ensures RowsOf(vertices, edges, maxRetries, graph).Keys == vertices
    ensures RowsOf(vertices, edges, maxRetries, graph)[j] == RowOf(edges, j, maxRetries[j], graph)
  {
  }

  lemma ChildRow(vertices: set<Vertex>, edges: set<(Vertex, Vertex)>, maxRetries: map<Vertex, nat>,
                 graph: Option<nat>, u: Vertex, v: Vertex)
    requires vertices <= maxRetries.Keys && u in vertices && v in vertices && u != v
    ensures DependingRow(RowsOf(vertices, edges, maxRetries, graph), v, {u}, v) ==
            RowOf(edges + {(u, v)}, v, maxRetries[v], graph)
  {
    hide Into, OutOf, RowsOf;
    RowsAre(vertices, edges, maxRetries, graph, u);
    RowsAre(vertices, edges, maxRetries, graph, v);
    assert u in {u} && RowOf(edges, u, maxRetries[u], graph).state != Done;
    IntoGrows(edges, u, v);
    assert u in Into(edges + {(u, v)}, v);
  }

  lemma OneMoreDependency(vertices: set<Vertex>, edges: set<(Vertex, Vertex)>, maxRetries: map<Vertex, nat>,
                          graph: Option<nat>, u: Vertex, v: Vertex)
    requires vertices <= maxRetries.Keys && u in vertices && v in vertices && u != v
    ensures WithDepends(RowsOf(vertices, edges, maxRetries, graph), v, {u}) ==
            RowsOf(vertices, edges + {(u, v)}, maxRetries, graph)
  {
    var rows := RowsOf(vertices, edges, maxRetries, graph);
    var more := RowsOf(vertices, edges + {(u, v)}, maxRetries, graph);
    assert rows.Keys == vertices && more.Keys == vertices;
    hide RowOf, DependingRow;
    forall j | j in vertices ensures DependingRow(rows, v, {u}, j) == RowOf(edges + {(u, v)}, j, maxRetries[j], graph) {
      OneMoreRow(vertices, edges, maxRetries, graph, u, v, j);
    }
  }

  function PairSet(pairs: seq<(Vertex, Vertex)>): set<(Vertex, Vertex)> {
    set e | e in pairs
  }

  lemma PairSetGrows(pairs: seq<(Vertex, Vertex)>, i: nat)
    requires i < |pairs|
    ensures PairSet(pairs[..i + 1]) == PairSet(pairs[..i]) + {pairs[i]}
  {
    assert pairs[..i + 1] == pairs[..i] + [pairs[i]];
  }

  lemma NoLoops(g: Links, pairs: seq<(Vertex, Vertex)>)
    requires forall u, v :: (u, v) in pairs <==> Edge(g, u, v)
    requires forall k :: 0 <= k < |pairs| ==> pairs[k].0 != pairs[k].1
    ensures forall v :: !Edge(g, v, v)
  {
    forall v ensures (v, v) !in pairs {
    }
  }

  // keyed: the vertices with an identity key; existing: those whose key finds a job. The
  // vertices without a key do not matter.
  predicate AllExist(vertices: set<Vertex>, keyed: set<Vertex>, existing: set<Vertex>) {
    vertices * keyed != {} && vertices * keyed <= existing
  }

  // The vertices whose jobs exist, or none as soon as one with a key has none.
  method ExistingMapping(vertices: set<Vertex>, keyed: set<Vertex>, existing: set<Vertex>) returns (mapping: set<Vertex>)
    ensures mapping == if AllExist(vertices, keyed, existing) then vertices * keyed else {}
  {
    mapping := {};
    var rest := vertices;
    while rest != {}
      invariant rest <= vertices && mapping == (vertices - rest) * keyed && mapping <= existing
      decreases rest
    {
      var vertex :| vertex in rest;
      rest := rest - {vertex};
      if vertex in keyed {
        if vertex !in existing {
          assert vertex in vertices * keyed;
          return {};
        }
        mapping := mapping + {vertex};
      }
    }
  }

  // add_depends() for every edge; a job that would depend on itself stops everything. If
  // all keyed jobs exist, one of them is handed out and nothing is stored.
  method StoreGraph(graph: Graph, maxRetries: map<Vertex, nat>, uuid: nat, keyed: set<Vertex>, existing: set<Vertex>)
    returns (result: Delayed)
    requires Closed(graph.links) && graph.links.Keys <= maxRetries.Keys
    ensures graph.links == map[] ==> result == ExpectingJobs
    ensures graph.links != map[] && (exists v :: Edge(graph.links, v, v)) ==> result == DependsOnItself
    ensures graph.links != map[] && (forall v :: !Edge(graph.links, v, v)) ==>
      if AllExist(graph.links.Keys, keyed, existing)
      then result.Existing? && result.vertex in graph.links.Keys * keyed
      else result == Stored(InitialRows(graph.links, maxRetries, uuid))
  {
    if graph.links == map[] { return ExpectingJobs; }
    var rows := AddAllDepends(graph, maxRetries, uuid);
    if rows.None? { return DependsOnItself; }
    var mapping := ExistingMapping(graph.links.Keys, keyed, existing);
    if mapping != {} {
      var vertex :| vertex in mapping;
      return Existing(vertex);
    }
    return Stored(rows.value);
  }

  method AddAllDepends(graph: Graph, maxRetries: map<Vertex, nat>, uuid: nat) returns (result: Option<Rows>)
    requires Closed(graph.links) && graph.links.Keys <= maxRetries.Keys
    ensures result == if exists v :: Edge(graph.links, v, v) then None else Some(InitialRows(graph.links, maxRetries, uuid))
  {
    var links := graph.links;
    var single := GraphUuid(links.Keys, uuid);
    var store := new Store(RowsOf(links.Keys, {}, maxRetries, single));
    var pairs := graph.Edges();
    var i := 0;
    assert PairSet(pairs[..0]) == {};
    while i < |pairs|
      invariant 0 <= i <= |pairs| && fresh(store) && graph.links == links
      invariant forall k :: 0 <= k < i ==> pairs[k].0 != pairs[k].1
      invariant store.rows == RowsOf(links.Keys, PairSet(pairs[..i]), maxRetries, single)
    {
      var (vertex, neighbour) := pairs[i];
      assert (vertex, neighbour) in pairs;
      assert Edge(links, vertex, neighbour);
      ghost var edges := PairSet(pairs[..i]);
      var ok := store.AddDepends(neighbour, {vertex});
      if !ok {
        assert Edge(links, vertex, vertex);
        return None;
      }
      OneMoreDependency(links.Keys, edges, maxRetries, single, vertex, neighbour);
      PairSetGrows(pairs, i);
      i := i + 1;
    }
    assert pairs[..i] == pairs;
    assert PairSet(pairs) == EdgeSet(links);
    NoLoops(links, pairs);
    return Some(store.rows);
  }

  lemma InitialDependencies(g: Links, maxRetries: map<Vertex, nat>, uuid: nat)
    requires Closed(g) && g.Keys <= maxRetries.Keys && forall v :: !Edge(g, v, v)
    ensures Dependencies(InitialRows(g, maxRetries, uuid)) == g
    ensures WellLinked(InitialRows(g, maxRetries, uuid))
  {
    var rows := InitialRows(g, maxRetries, uuid);
    forall u, v ensures (u, v) in EdgeSet(g) <==> Edge(g, u, v) {
    }
    forall v ensures Into(EdgeSet(g), v) == Parents(g, v) {
      forall u | u in Parents(g, v) ensures u in Into(EdgeSet(g), v) {
        assert (u, v) in EdgeSet(g);
      }
    }
    forall v | v in g ensures OutOf(EdgeSet(g), v) == g[v] {
      forall w | w in g[v] ensures w in OutOf(EdgeSet(g), v) {
        assert (v, w) in EdgeSet(g);
      }
    }
    forall u, v | Edge(g, u, v) ensures GraphUuid(g.Keys, uuid).Some? {
      TwoVertices(g.Keys, u, v);
    }
  }

  // All jobs of a graph share its uuid, and a single job has none.
  lemma GraphIsShared(g: Links, maxRetries: map<Vertex, nat>, uuid: nat, j: Vertex)
    requires g.Keys <= maxRetries.Keys && j in g
    ensures InitialRows(g, maxRetries, uuid)[j].graph == if g.Keys == {j} then None else Some(uuid)
  {
    if g.Keys != {j} {
      var i :| i in g && i != j;
      TwoVertices(g.Keys, i, j);
    }
  }

  lemma TwoVertices(s: set<Vertex>, u: Vertex, v: Vertex)
    requires u in s && v in s && u != v
    ensures |s| != 1
  {
    assert s == (s - {u, v}) + {u, v};
  }

  function InitialQueue(g: Links, maxRetries: map<Vertex, nat>, uuid: nat): Queue
    requires g.Keys <= maxRetries.Keys
  {
    Queue(InitialRows(g, maxRetries, uuid), map[], {}, {})
  }

  // Roots are pending, and everything else waits for a parent that is not done.
  ghost predicate JustCreated(q: Queue) {
    && q.workers == map[] && q.owed == {} && q.everDone == {}
    && forall j :: j in q.rows ==>
         && q.rows[j].state == (if q.rows[j].dependsOn == {} then Pending else WaitDependencies)
         && (AllParentsDone(q.rows, j) <==> q.rows[j].dependsOn == {})
  }

  predicate IsNewRow(job: Job, vertices: set<Vertex>) {
    && job.state == (if job.dependsOn == {} then Pending else WaitDependencies)
    && job.dependsOn <= vertices
  }

  lemma InitialRow(g: Links, maxRetries: map<Vertex, nat>, uuid: nat, j: Vertex)
    requires g.Keys <= maxRetries.Keys && j in g
    ensures IsNewRow(InitialRows(g, maxRetries, uuid)[j], g.Keys)
  {
    var rows := InitialRows(g, maxRetries, uuid);
    assert rows[j] == RowOf(EdgeSet(g), j, maxRetries[j], GraphUuid(g.Keys, uuid));
    hide InitialRows;
  }

  lemma InitiallyJustCreated(g: Links, maxRetries: map<Vertex, nat>, uuid: nat)
    requires g.Keys <= maxRetries.Keys
    ensures JustCreated(InitialQueue(g, maxRetries, uuid))
  {
    var rows := InitialRows(g, maxRetries, uuid);
    assert rows.Keys == g.Keys;
    hide InitialRows, IsNewRow, JustCreated;
    forall j | j in rows ensures IsNewRow(rows[j], rows.Keys) {
      InitialRow(g, maxRetries, uuid, j);
    }
    NewRows(rows);
  }

  lemma NewRows(rows: Rows)
    requires forall j :: j in rows ==> IsNewRow(rows[j], rows.Keys)
    ensures JustCreated(Queue(rows, map[], {}, {}))
  {
    forall j | j in rows ensures AllParentsDone(rows, j) <==> rows[j].dependsOn == {} {
      if p :| p in rows[j].dependsOn {
        assert IsNewRow(rows[p], rows.Keys);
      }
    }
  }

  lemma JustCreatedIsSafe(q: Queue)
    requires WellLinked(q.rows) && JustCreated(q)
    ensures ReleaseSafe(q) && DoneBelow(q)
  {
    hide WellLinked, AllParentsDone;
  }

  lemma JustCreatedIsUpToDate(q: Queue)
    requires WellLinked(q.rows) && JustCreated(q)
    ensures UpToDate(q) && NoLostWakeUp(q)
  {
    hide WellLinked, AllParentsDone;
  }

  // The stored graph starts with every property the queue keeps.
  lemma InitialQueueIsSound(g: Links, maxRetries: map<Vertex, nat>, uuid: nat)
    requires Closed(g) && g.Keys <= maxRetries.Keys && forall v :: !Edge(g, v, v)
    ensures var q := InitialQueue(g, maxRetries, uuid);
      ReleaseSafe(q) && NoLostWakeUp(q) && UpToDate(q) && DoneBelow(q) && Dependencies(q.rows) == g
  {
    InitialDependencies(g, maxRetries, uuid);
    InitiallyJustCreated(g, maxRetries, uuid);
    hide InitialRows, Dependencies, WellLinked, JustCreated, ReleaseSafe, NoLostWakeUp, UpToDate, DoneBelow;
    var q := InitialQueue(g, maxRetries, uuid);
    JustCreatedIsSafe(q);
    JustCreatedIsUpToDate(q);
  }

  // With limited retries it also starts with all attempts and starts left.
  lemma InitialQueueHasRetries(g: Links, maxRetries: map<Vertex, nat>, uuid: nat)
    requires g.Keys <= maxRetries.Keys && forall v :: v in g ==> 0 < maxRetries[v]
    ensures var q := InitialQueue(g, maxRetries, uuid);
      && Tidy(q) && q.rows.Keys == g.Keys
      && forall j :: j in g ==> q.rows[j].retry == 0 && q.rows[j].maxRetries == maxRetries[j] && HasStarts(q.rows[j])
  {
  }

  // Whatever happens by itself after delay(): how often a job is performed and started, and
  // how long it takes.
  lemma DelayedJobsAreBounded(g: Links, maxRetries: map<Vertex, nat>, uuid: nat, steps: seq<Step>, j: Vertex)
    requires g.Keys <= maxRetries.Keys && (forall v :: v in g ==> 0 < maxRetries[v]) && j in g
    requires Runnable(InitialQueue(g, maxRetries, uuid), steps) && AllUnattended(steps)
    ensures var q := InitialQueue(g, maxRetries, uuid);
      var t := TallyOf(q, steps, j);
      && (NeverOverruns(q, steps, j) && t.deaths == 0 ==> t.performed <= maxRetries[j] + t.ignored)
      && (NoConflictBeyond(q, steps, j) ==> t.starts <= maxRetries[j] + 2 + t.ignored)
      && ((forall i :: i in g ==> NoConflictBeyond(q, steps, i)) ==> |steps| <= Measure(q) + AllRepeats(q, steps))
  {
    hide InitialQueue, HasStarts, Synced, HasRetries, Runnable, TallyOf, NeverOverruns, NoConflictBeyond, Measure, AllRepeats;
    var q := InitialQueue(g, maxRetries, uuid);
    InitialQueueHasRetries(g, maxRetries, uuid);
    if NeverOverruns(q, steps, j) && TallyOf(q, steps, j).deaths == 0 { PerformedAtMostMaxRetries(q, steps, j); }
    if NoConflictBeyond(q, steps, j) { StartsAreBounded(q, steps, j); }
    if forall i :: i in g ==> NoConflictBeyond(q, steps, i) { UnattendedRunsEnd(q, steps); }
  }

  // ------------------------------------------------------------------ the documented order in the queue

  // Whatever was done had all its parents done before.
  ghost predicate DoneBelow(q: Queue) {
    forall j :: j in q.everDone ==> j in q.rows && q.rows[j].dependsOn <= q.everDone
  }

  predicate ByWorkersOnly(steps: seq<Step>) {
    forall i :: 0 <= i < |steps| ==> !steps[i].MarkDone? && !steps[i].RunNow?
  }

  lemma WorkersKeepDoneBelow(q: Queue, step: Step)
    requires ReleaseSafe(q) && DoneBelow(q) && Enabled(q, step) && !step.MarkDone? && !step.RunNow?
    ensures DoneBelow(Next(q, step))
  {
    hide WellLinked, ReleaseSafe, Selected, AllParentsDone, UpdateDependents, Perform, Revived;
    StepsKeepStructure(q, step);
    var q' := Next(q, step);
    if step.Finish? { HeldParentsWereDone(q, step.worker); }
    assert q'.everDone == q.everDone || (step.Finish? && q'.everDone == q.everDone + {q.workers[step.worker].uuid});
    hide Next;
    forall j | j in q'.everDone ensures j in q'.rows && q'.rows[j].dependsOn <= q'.everDone {
      assert q'.rows[j].dependsOn == q.rows[j].dependsOn;
    }
  }

  lemma {:induction false} RunsKeepDoneBelow(q: Queue, steps: seq<Step>)
    requires ReleaseSafe(q) && DoneBelow(q) && Runnable(q, steps) && ByWorkersOnly(steps)
    ensures ReleaseSafe(Run(q, steps)) && DoneBelow(Run(q, steps)) && SameStructure(q.rows, Run(q, steps).rows)
    decreases |steps|
  {
    if steps != [] {
      StepIsSafe(q, steps[0]);
      StepsKeepStructure(q, steps[0]);
      assert !steps[0].MarkDone? && !steps[0].RunNow?;
      WorkersKeepDoneBelow(q, steps[0]);
      RunsKeepDoneBelow(Next(q, steps[0]), steps[1..]);
    }
  }

  // Some attempt of job j in the run ends with success.
  predicate SucceedsIn(q: Queue, steps: seq<Step>, j: Vertex)
    requires Runnable(q, steps)
    decreases |steps|
  {
    steps != [] &&
    (|| (&& steps[0].Finish? && q.workers[steps[0].worker].uuid == j
         && (steps[0].outcome == Succeeds || steps[0].outcome == NothingToDo))
     || SucceedsIn(Next(q, steps[0]), steps[1..], j))
  }

  lemma DoneByStep(q: Queue, step: Step)
    requires Enabled(q, step) && !step.MarkDone? && !step.RunNow?
    ensures Next(q, step).everDone ==
      if step.Finish? && (step.outcome == Succeeds || step.outcome == NothingToDo)
      then q.everDone + {q.workers[step.worker].uuid} else q.everDone
  {
    hide AllParentsDone, UpdateDependents, Perform;
    if step.Finish? { FinishMeaning(q, step.worker, step.outcome); }
  }

  // In a run by workers only, a job is done at some time if and only if some attempt of it
  // returned, or found nothing to do.
  lemma {:induction false} DoneBySuccess(q: Queue, steps: seq<Step>, j: Vertex)
    requires Runnable(q, steps) && ByWorkersOnly(steps)
    ensures j in Run(q, steps).everDone <==> j in q.everDone || SucceedsIn(q, steps, j)
    decreases |steps|
  {
    if steps != [] {
      assert !steps[0].MarkDone? && !steps[0].RunNow?;
      DoneByStep(q, steps[0]);
      hide Next, Enabled;
      DoneBySuccess(Next(q, steps[0]), steps[1..], j);
    }
  }

  lemma {:induction false} AncestorsDone(q: Queue, p: seq<Vertex>)
    requires WellLinked(q.rows) && DoneBelow(q) && Walk(Dependencies(q.rows), p) && |p| >= 2
    requires p[|p| - 1] in q.rows && q.rows[p[|p| - 1]].dependsOn <= q.everDone
    ensures p[0] in q.everDone
    decreases |p|
  {
    var n := |p| - 1;
    assert Edge(Dependencies(q.rows), p[n - 1], p[n - 1 + 1]);
    if n > 1 { AncestorsDone(q, p[..n]); }
  }

  // In the queue, with jobs done by workers only, a job is never pending, enqueued or
  // started before everything the chains, groups and on_done() calls put in front of it
  // has been done. This holds at every moment of every run.
  lemma QueueRespectsDocumentedOrder(f: Forest, c: set<Vertex>, g: Links, maxRetries: map<Vertex, nat>, uuid: nat,
                                     steps: seq<Step>, u: Vertex, v: Vertex)
    requires Kept(f, c, g) && g.Keys <= maxRetries.Keys && forall x :: !Edge(g, x, x)
    requires Closed(g) && Runnable(InitialQueue(g, maxRetries, uuid), steps) && ByWorkersOnly(steps)
    requires Reaches(Documented(f, c), u, v)
    ensures var q := Run(InitialQueue(g, maxRetries, uuid), steps);
      v in q.rows && (IsReleased(q.rows[v].state) || v in q.everDone ==> u in q.everDone)
  {
    var q0 := InitialQueue(g, maxRetries, uuid);
    var q := Run(q0, steps);
    FlatteningIsExact(f, c, g);
    InitialQueueIsSound(g, maxRetries, uuid);
    RunsKeepDoneBelow(q0, steps);
    assert Reaches(g, u, v);
    var w := LastStep(g, u, v);
    assert v in g.Keys;
    SameDependencies(q0.rows, q.rows);
    if IsReleased(q.rows[v].state) || v in q.everDone {
      var p :| WalkBetween(g, p, u, v);
      AncestorsDone(q, p);
    }
  }

  lemma SameDependencies(rows: Rows, rows': Rows)
    requires SameStructure(rows, rows')
    ensures Dependencies(rows') == Dependencies(rows)
  {
  }
}

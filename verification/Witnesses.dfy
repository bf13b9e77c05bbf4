// Concrete inputs on which the code of queue_job does not do what its documentation says.
module Witnesses {
  import opened Graphs
  import opened Delayables
  import opened Ordering
  import opened Nesting
  import opened Jobs
  import opened JobSafety
  import opened JobRuns
  import opened Delay

  // ------------------------------------------------------------------ flattening

  // chain(p, chain(chain(a, b), c)): 0 = p, 1 = a, 2 = b, 3 = c, 4 = chain(a, b),
  // 5 = chain(4, c), 6 = the whole.
  const NESTED_CHAINS := Forest(
    map[0 := Leaf, 1 := Leaf, 2 := Leaf, 3 := Leaf, 4 := Chain([1, 2]), 5 := Chain([4, 3]), 6 := Chain([0, 5])],
    map[0 := {}, 1 := {}, 2 := {}, 3 := {}, 4 := {}, 5 := {}, 6 := {}])

  const ALL_SEVEN: set<Vertex> := {0, 1, 2, 3, 4, 5, 6}

  lemma NestedParts(n: Vertex, p: Vertex)
    requires n in NESTED_CHAINS.kind && p in Parts(NESTED_CHAINS.kind[n])
    ensures (n == 4 && p in {1, 2}) || (n == 5 && p in {4, 3}) || (n == 6 && p in {0, 5})
  {
  }

  lemma NestedChainsValid()
    ensures Valid(NESTED_CHAINS)
  {
    forall n, p | n in NESTED_CHAINS.kind && p in Parts(NESTED_CHAINS.kind[n])
      ensures p in NESTED_CHAINS.kind && p < n
    {
      NestedParts(n, p);
    }
  }

  lemma NestedClosed()
    requires Valid(NESTED_CHAINS)
    ensures MentionsClosed(NESTED_CHAINS, ALL_SEVEN)
  {
    assert ALL_SEVEN <= NESTED_CHAINS.kind.Keys;
    hide Valid;
    forall n, m | n in ALL_SEVEN && m in OwnVertices(NESTED_CHAINS, n) ensures m in ALL_SEVEN {
      if m in Parts(NESTED_CHAINS.kind[n]) { NestedParts(n, m); }
    }
  }

  lemma Mentioned(f: Forest, start: Vertex, n: Vertex, m: Vertex)
    requires Valid(f) && start in f.kind && n in Component(f, start) && m in OwnVertices(f, n)
    ensures m in Component(f, start)
  {
    hide Reaches;
    ComponentCloses(f, start);
  }

  // What delay() of the whole visits.
  lemma NestedComponent()
    ensures Valid(NESTED_CHAINS) && Component(NESTED_CHAINS, 6) == ALL_SEVEN
  {
    NestedChainsValid();
    hide Valid, Component;
    var f := NESTED_CHAINS;
    StartMentioned(f, 6);
    assert OwnVertices(f, 6) == {0, 5} && OwnVertices(f, 5) == {4, 3} && OwnVertices(f, 4) == {1, 2} by {
      NestedOwnVertices();
    }
    hide OwnVertices;
    Mentioned(f, 6, 6, 0);
    Mentioned(f, 6, 6, 5);
    Mentioned(f, 6, 5, 4);
    Mentioned(f, 6, 5, 3);
    Mentioned(f, 6, 4, 1);
    Mentioned(f, 6, 4, 2);
    assert Component(f, 6) <= f.kind.Keys by { ComponentCloses(f, 6); }
  }

  lemma StartMentioned(f: Forest, start: Vertex)
    requires Valid(f) && start in f.kind
    ensures start in Component(f, start)
  {
    ComponentCloses(f, start);
  }

  lemma NestedOwnVertices()
    requires Valid(NESTED_CHAINS)
    ensures OwnVertices(NESTED_CHAINS, 6) == {0, 5} && OwnVertices(NESTED_CHAINS, 5) == {4, 3}
    ensures OwnVertices(NESTED_CHAINS, 4) == {1, 2}
  {
    hide Valid;
  }

  lemma NestedLinks(n: Vertex, v: Vertex, w: Vertex)
    requires Valid(NESTED_CHAINS) && n in ALL_SEVEN && OwnLink(NESTED_CHAINS, n, v, w)
    ensures (v == 1 && w == 2) || (v == 4 && w == 3) || (v == 0 && w == 5)
  {
    hide Valid;
  }

  lemma NestedHeads()
    requires Valid(NESTED_CHAINS)
    ensures Head(NESTED_CHAINS, 2) == {2} && Head(NESTED_CHAINS, 3) == {3} && Head(NESTED_CHAINS, 5) == {2}
  {
    hide Valid;
    assert Ends(NESTED_CHAINS, 4, false) == Ends(NESTED_CHAINS, 2, true);
  }

  lemma NestedLeaf()
    requires Valid(NESTED_CHAINS)
    ensures 1 in Leaves(NESTED_CHAINS, 5)
  {
    hide Valid;
    var f := NESTED_CHAINS;
    assert 4 in Parts(f.kind[5]) && 1 in Parts(f.kind[4]);
    assert Inside(f, 1, 4);
  }

  lemma NestedDemand()
    requires Valid(NESTED_CHAINS)
    ensures Demands(NESTED_CHAINS, 6, 0, 1)
  {
    hide Valid, Inside;
    NestedLeaf();
    hide Leaves;
    assert 0 in Parts(NESTED_CHAINS.kind[6]) && 5 in Parts(NESTED_CHAINS.kind[6]);
    assert 0 in Leaves(NESTED_CHAINS, 0) by { OwnLeaf(NESTED_CHAINS, 0); }
    assert ChainPair(NESTED_CHAINS, 6, [0, 5], 0, 1, 0, 1);
  }

  lemma OwnLeaf(f: Forest, n: Vertex)
    requires Valid(f) && n in f.kind && f.kind[n].Leaf?
    ensures n in Leaves(f, n)
  {
  }

  // a does not wait for p: the head of the inner chain is the tail of chain(a, b).
  lemma NestedChainEscapes(g: Links)
    ensures Valid(NESTED_CHAINS)
    ensures IsFlattening(NESTED_CHAINS, Component(NESTED_CHAINS, 6), g) ==>
      Edge(Documented(NESTED_CHAINS, Component(NESTED_CHAINS, 6)), 0, 1) && !Reaches(g, 0, 1)
  {
    hide IsFlattening, Reaches, Valid, MentionsClosed, Demands, Component;
    NestedComponent();
    NestedClosed();
    NestedHeads();
    var f, c := NESTED_CHAINS, ALL_SEVEN;
    if IsFlattening(f, c, g) && Reaches(g, 0, 1) {
      var t := LastStep(g, 0, 1);
      var m, v, w := FlatEdgeOrigin(f, c, g, t, 1);
      NestedLinks(m, v, w);
      assert false;
    }
    NestedDemand();
    DemandInDocument(f, c, 6, 0, 1);
  }

  // chain(a, group(b, c), d): 0 = a, 1 = b, 2 = c, 3 = d, 4 = the group, 5 = the whole.
  const GROUP_IN_CHAIN := Forest(
    map[0 := Leaf, 1 := Leaf, 2 := Leaf, 3 := Leaf, 4 := Group({1, 2}), 5 := Chain([0, 4, 3])],
    map[0 := {}, 1 := {}, 2 := {}, 3 := {}, 4 := {}, 5 := {}])

  lemma GroupInChainParts(n: Vertex, p: Vertex)
    requires n in GROUP_IN_CHAIN.kind && p in Parts(GROUP_IN_CHAIN.kind[n])
    ensures (n == 4 && p in {1, 2}) || (n == 5 && p in {0, 4, 3})
  {
  }

  lemma GroupInChainValid()
    ensures Valid(GROUP_IN_CHAIN)
  {
    forall n, p | n in GROUP_IN_CHAIN.kind && p in Parts(GROUP_IN_CHAIN.kind[n])
      ensures p in GROUP_IN_CHAIN.kind && p < n
    {
      GroupInChainParts(n, p);
    }
  }

  lemma GroupInChainIsExposed(c: set<Vertex>)
    requires Valid(GROUP_IN_CHAIN) && c <= GROUP_IN_CHAIN.kind.Keys
    ensures NoEmptyGroup(GROUP_IN_CHAIN, c) && LinksExposed(GROUP_IN_CHAIN, c)
  {
    hide Valid, Exposes;
    GroupInChainSides(false);
    GroupInChainSides(true);
  }

  lemma GroupInChainSides(front: bool)
    requires Valid(GROUP_IN_CHAIN)
    ensures Exposes(GROUP_IN_CHAIN, 0, front) && Exposes(GROUP_IN_CHAIN, 4, front) && Exposes(GROUP_IN_CHAIN, 3, front)
  {
    hide Valid;
  }

  lemma GroupInChainDemands()
    requires Valid(GROUP_IN_CHAIN)
    ensures Demands(GROUP_IN_CHAIN, 5, 0, 1) && Demands(GROUP_IN_CHAIN, 5, 2, 3)
  {
    hide Valid, Inside;
    var f := GROUP_IN_CHAIN;
    OwnLeaf(f, 0);
    OwnLeaf(f, 1);
    OwnLeaf(f, 2);
    OwnLeaf(f, 3);
    assert 1 in Parts(f.kind[4]) && 2 in Parts(f.kind[4]);
    PartLeaves(f, 4, 1);
    PartLeaves(f, 4, 2);
    hide Leaves;
    assert 0 in Parts(f.kind[5]) && 4 in Parts(f.kind[5]) && 3 in Parts(f.kind[5]);
    assert ChainPair(f, 5, [0, 4, 3], 0, 1, 0, 1) && ChainPair(f, 5, [0, 4, 3], 1, 2, 2, 3);
  }

  // The members of a group in a chain wait for what is before it, and are waited for.
  lemma GroupInChainWaits(g: Links)
    ensures Valid(GROUP_IN_CHAIN)
    ensures IsFlattening(GROUP_IN_CHAIN, Component(GROUP_IN_CHAIN, 5), g) ==> Reaches(g, 0, 1) && Reaches(g, 2, 3)
  {
    hide Valid, IsFlattening, Reaches, Component, MentionsClosed, Demands, LinksExposed, NoEmptyGroup, Documented, OwnVertices;
    GroupInChainValid();
    var f, c := GROUP_IN_CHAIN, Component(GROUP_IN_CHAIN, 5);
    ComponentCloses(f, 5);
    StartMentioned(f, 5);
    if IsFlattening(f, c, g) {
      assert c <= f.kind.Keys by { KeysInside(f, c); }
      GroupInChainIsExposed(c);
      GroupInChainDemands();
      ExposedIsExact(f, c, g);
      DemandedLeaves(f, c, 5, 0, 1);
      DemandedLeaves(f, c, 5, 2, 3);
      DemandInDocument(f, c, 5, 0, 1);
      DemandInDocument(f, c, 5, 2, 3);
      EdgeReaches(Documented(f, c), 0, 1);
      EdgeReaches(Documented(f, c), 2, 3);
    }
  }

  // chain(a, group(), b): 0 = a, 1 = group(), 2 = b, 3 = the whole.
  const EMPTY_GROUP := Forest(
    map[0 := Leaf, 1 := Group({}), 2 := Leaf, 3 := Chain([0, 1, 2])],
    map[0 := {}, 1 := {}, 2 := {}, 3 := {}])

  const ALL_FOUR: set<Vertex> := {0, 1, 2, 3}

  lemma EmptyGroupValid()
    ensures Valid(EMPTY_GROUP) && MentionsClosed(EMPTY_GROUP, ALL_FOUR)
  {
  }

  lemma EmptyGroupLinks(n: Vertex, v: Vertex, w: Vertex)
    requires Valid(EMPTY_GROUP) && n in ALL_FOUR && OwnLink(EMPTY_GROUP, n, v, w)
    ensures v == 1 || w == 1
  {
    hide Valid;
  }

  lemma EmptyGroupComponent()
    ensures Valid(EMPTY_GROUP) && Component(EMPTY_GROUP, 3) == ALL_FOUR
  {
    EmptyGroupValid();
    hide Valid, Component, MentionsClosed;
    var f := EMPTY_GROUP;
    StartMentioned(f, 3);
    assert OwnVertices(f, 3) == {0, 1, 2};
    hide OwnVertices;
    Mentioned(f, 3, 3, 0);
    Mentioned(f, 3, 3, 1);
    Mentioned(f, 3, 3, 2);
    assert Component(f, 3) <= f.kind.Keys by { ComponentCloses(f, 3); }
  }

  lemma EmptyGroupDemand()
    requires Valid(EMPTY_GROUP)
    ensures Demands(EMPTY_GROUP, 3, 0, 2)
  {
    hide Valid, Inside;
    OwnLeaf(EMPTY_GROUP, 0);
    OwnLeaf(EMPTY_GROUP, 2);
    hide Leaves;
    assert 0 in Parts(EMPTY_GROUP.kind[3]) && 2 in Parts(EMPTY_GROUP.kind[3]);
    assert ChainPair(EMPTY_GROUP, 3, [0, 1, 2], 0, 2, 0, 2);
  }

  // An empty group in the middle of a chain cuts it: b does not wait for a.
  lemma EmptyGroupCutsChain(g: Links)
    ensures Valid(EMPTY_GROUP)
    ensures IsFlattening(EMPTY_GROUP, Component(EMPTY_GROUP, 3), g) ==>
      Edge(Documented(EMPTY_GROUP, Component(EMPTY_GROUP, 3)), 0, 2) && !Reaches(g, 0, 2)
  {
    hide Valid, IsFlattening, MentionsClosed, Reaches, Demands, Component;
    EmptyGroupComponent();
    EmptyGroupValid();
    var f, c := EMPTY_GROUP, ALL_FOUR;
    if IsFlattening(f, c, g) && Reaches(g, 0, 2) {
      var t := LastStep(g, 0, 2);
      var m, v, w := FlatEdgeOrigin(f, c, g, t, 2);
      EmptyGroupLinks(m, v, w);
      assert false;
    }
    EmptyGroupDemand();
    DemandInDocument(f, c, 3, 0, 2);
  }

  // group().on_done(t).delay(): 0 = t, 1 = group().
  const NOTHING_FIRST := Forest(map[0 := Leaf, 1 := Group({})], map[0 := {}, 1 := {0}])

  lemma NothingFirstFacts()
    ensures Valid(NOTHING_FIRST) && UsedOnce(NOTHING_FIRST, NOTHING_FIRST.kind.Keys)
    ensures !Inside(NOTHING_FIRST, 1, 0) && Inside(NOTHING_FIRST, 0, 0)
    ensures forall m :: m in NOTHING_FIRST.kind && m != 1 ==> 0 !in Uses(NOTHING_FIRST, m)
  {
  }

  // Not even t is left, and delay() raises.
  lemma EmptyGroupLeavesNothing(g: Links)
    ensures Valid(NOTHING_FIRST)
    ensures IsFlattening(NOTHING_FIRST, Component(NOTHING_FIRST, 1), g) ==> g == map[]
  {
    hide IsFlattening, Valid, Component, UsedOnce, Inside;
    NothingFirstFacts();
    ComponentCloses(NOTHING_FIRST, 1);
    if IsFlattening(NOTHING_FIRST, Component(NOTHING_FIRST, 1), g) {
      EmptyGroupForgets(NOTHING_FIRST, 1, g, 1, 0, 0);
      FlatteningIsOnLeaves(NOTHING_FIRST, Component(NOTHING_FIRST, 1), g);
      assert g.Keys == {};
    }
  }

  // ------------------------------------------------------------------ the queue

  // Job 2 depends on job 1.
  function Two(s1: State, r1: nat, s2: State, r2: nat): Rows {
    map[1 := Job(s1, r1, 5, {}, {2}, Some(0)), 2 := Job(s2, r2, 5, {1}, {}, Some(0))]
  }

  lemma TwoParents(s1: State, r1: nat, s2: State, r2: nat)
    ensures AllParentsDone(Two(s1, r1, s2, r2), 2) <==> s1 == Done
    ensures AllParentsDone(Two(s1, r1, s2, r2), 1)
  {
    assert 1 in Two(s1, r1, s2, r2)[2].dependsOn;
  }

  lemma TwoWake(r1: nat, s2: State, r2: nat)
    requires s2 != WaitDependencies
    ensures UpdateDependents(Two(Done, r1, s2, r2), 1, Done, Pending) == Two(Done, r1, s2, r2)
  {
  }

  // chain(1, 2).delay()
  const CHAIN_OF_TWO: Links := map[1 := {2}, 2 := {}]

  const CREATED := Queue(Two(Pending, 0, WaitDependencies, 0), map[], {}, {})

  lemma CreatedRows()
    ensures InitialRows(CHAIN_OF_TWO, map[1 := 5, 2 := 5], 0) == Two(Pending, 0, WaitDependencies, 0)
  {
    assert EdgeSet(CHAIN_OF_TWO) == {(1, 2)};
    assert Into({(1 as Vertex, 2 as Vertex)}, 1) == {} && Into({(1 as Vertex, 2 as Vertex)}, 2) == {1};
    assert OutOf({(1 as Vertex, 2 as Vertex)}, 1) == {2} && OutOf({(1 as Vertex, 2 as Vertex)}, 2) == {};
    assert |CHAIN_OF_TWO.Keys| == |{1 as Vertex, 2 as Vertex}| == 2;
  }

  lemma CreatedByDelay()
    ensures InitialQueue(CHAIN_OF_TWO, map[1 := 5, 2 := 5], 0) == CREATED
    ensures ReleaseSafe(CREATED) && NoLostWakeUp(CREATED) && UpToDate(CREATED) && Synced(CREATED)
  {
    hide InitialRows, ReleaseSafe, NoLostWakeUp, UpToDate;
    CreatedRows();
    hide Two;
    InitialQueueIsSound(CHAIN_OF_TWO, map[1 := 5, 2 := 5], 0);
  }

  // One step of a run from CREATED on.
  lemma Further(before: seq<Step>, q: Queue, step: Step)
    requires Runnable(CREATED, before) && Run(CREATED, before) == q && Enabled(q, step)
    ensures Runnable(CREATED, before + [step]) && Run(CREATED, before + [step]) == Next(q, step)
  {
    RunOn(CREATED, before, step);
  }

  lemma {:induction false} RunOn(q: Queue, steps: seq<Step>, step: Step)
    requires Runnable(q, steps) && Enabled(Run(q, steps), step)
    ensures Runnable(q, steps + [step]) && Run(q, steps + [step]) == Next(Run(q, steps), step)
    decreases |steps|
  {
    var all := steps + [step];
    if steps == [] {
      assert all == [step] && all[1..] == [];
    } else {
      assert all[0] == steps[0] && all[1..] == steps[1..] + [step];
      RunOn(Next(q, steps[0]), steps[1..], step);
    }
  }

  // Job 1 is done and wakes job 2, which is enqueued. A user requeues job 1; job 2 starts
  // and loads its parent as pending; job 1 is done again and wakes nobody, since job 2 is
  // running. When job 2 then asks for a retry it is put back to waiting, and nothing is left
  // that would ever wake it.
  const ENQUEUED := Queue(Two(Done, 1, Enqueued, 0), map[], {}, {1})
  const REQUEUED := Queue(Two(Pending, 0, Enqueued, 0), map[], {}, {1})
  const LOADED := Queue(Two(Pending, 0, Started, 0), map[1 := Worker(2, 0, false)], {}, {1})
  const AGAIN := Queue(Two(Enqueued, 0, Started, 0), map[1 := Worker(2, 0, false)], {}, {1})
  const BOTH := Queue(Two(Started, 0, Started, 0), map[1 := Worker(2, 0, false), 2 := Worker(1, 0, true)], {}, {1})
  const OWING := Queue(Two(Done, 1, Started, 0), map[1 := Worker(2, 0, false)], {1}, {1})
  const WOKEN := Queue(Two(Done, 1, Started, 0), map[1 := Worker(2, 0, false)], {}, {1})
  const STRANDED := Queue(Two(Done, 1, WaitDependencies, 1), map[], {}, {1})

  const FIRST_DONE := Queue(Two(Done, 1, WaitDependencies, 0), map[], {1}, {1})

  const FIRST_ENQUEUED := Queue(Two(Enqueued, 0, WaitDependencies, 0), map[], {}, {})
  const FIRST_STARTED := Queue(Two(Started, 0, WaitDependencies, 0), map[1 := Worker(1, 0, true)], {}, {})

  lemma FirstStepsOneByOne()
    ensures Enabled(CREATED, Enqueue(1)) && Next(CREATED, Enqueue(1)) == FIRST_ENQUEUED
    ensures Enabled(FIRST_ENQUEUED, Start(1, 1)) && Next(FIRST_ENQUEUED, Start(1, 1)) == FIRST_STARTED
    ensures Enabled(FIRST_STARTED, Finish(1, Succeeds)) && Next(FIRST_STARTED, Finish(1, Succeeds)) == FIRST_DONE
  {
    TwoParents(Enqueued, 0, WaitDependencies, 0);
  }

  lemma FirstSteps() returns (steps: seq<Step>)
    ensures Runnable(CREATED, steps) && Run(CREATED, steps) == FIRST_DONE
  {
    hide Next, Two, Enabled;
    FirstStepsOneByOne();
    Further([], CREATED, Enqueue(1));
    steps := [] + [Enqueue(1)];
    Further(steps, FIRST_ENQUEUED, Start(1, 1));
    steps := steps + [Start(1, 1)];
    Further(steps, FIRST_STARTED, Finish(1, Succeeds));
    steps := steps + [Finish(1, Succeeds)];
  }

  lemma WokenAndEnqueued()
    ensures Enabled(FIRST_DONE, Wake(1)) && Next(FIRST_DONE, Wake(1)) == Queue(Two(Done, 1, Pending, 0), map[], {}, {1})
    ensures Enabled(Queue(Two(Done, 1, Pending, 0), map[], {}, {1}), Enqueue(2))
    ensures Next(Queue(Two(Done, 1, Pending, 0), map[], {}, {1}), Enqueue(2)) == ENQUEUED
  {
    var rows := Two(Done, 1, WaitDependencies, 0);
    assert 1 in rows[2].dependsOn;
    assert Selected(rows, 1, Done, 2);
    assert UpdateDependents(rows, 1, Done, Pending) == Two(Done, 1, Pending, 0);
  }

  lemma LosingStepsA()
    ensures Enabled(ENQUEUED, Requeue(1)) && Next(ENQUEUED, Requeue(1)) == REQUEUED
    ensures Enabled(REQUEUED, Start(2, 1)) && Next(REQUEUED, Start(2, 1)) == LOADED
    ensures Enabled(LOADED, Enqueue(1)) && Next(LOADED, Enqueue(1)) == AGAIN
  {
    TwoParents(Done, 1, Enqueued, 0);
    TwoParents(Pending, 0, Enqueued, 0);
  }

  lemma LosingStepsB()
    ensures Enabled(AGAIN, Start(1, 2)) && Next(AGAIN, Start(1, 2)) == BOTH
    ensures Enabled(BOTH, Finish(2, Succeeds)) && Next(BOTH, Finish(2, Succeeds)) == OWING
  {
    TwoParents(Enqueued, 0, Started, 0);
  }

  lemma LosingStepsC()
    ensures Enabled(OWING, Wake(1)) && Next(OWING, Wake(1)) == WOKEN
    ensures Enabled(WOKEN, Finish(1, Retryable)) && Next(WOKEN, Finish(1, Retryable)) == STRANDED
  {
    TwoWake(1, Started, 0);
  }

  lemma NobodyOwes(r2: nat)
    ensures var q := Queue(Two(Done, 1, WaitDependencies, r2), map[], {}, {1});
      Lost(q, 2) && !NoLostWakeUp(q) && Synced(q) && WellLinked(q.rows)
  {
    TwoParents(Done, 1, WaitDependencies, r2);
    var q := Queue(Two(Done, 1, WaitDependencies, r2), map[], {}, {1});
    assert 2 in q.rows && q.rows[2].state == WaitDependencies;
  }

  // A run from a fresh chain of two jobs that ends with the second job lost for ever.
  lemma RequeueAndRetryLoseWakeUp(further: seq<Step>) returns (steps: seq<Step>)
    requires Runnable(STRANDED, further) && AllUnattended(further)
    ensures Runnable(CREATED, steps) && Run(CREATED, steps) == STRANDED && Lost(Run(STRANDED, further), 2)
  {
    NobodyOwes(1);
    LostForEver(STRANDED, further, 2);
    steps := FirstSteps();
    WokenAndEnqueued();
    LosingStepsA();
    LosingStepsB();
    LosingStepsC();
    hide Next, Two, Enabled, Lost, NoLostWakeUp;
    Further(steps, FIRST_DONE, Wake(1));
    steps := steps + [Wake(1)];
    Further(steps, Queue(Two(Done, 1, Pending, 0), map[], {}, {1}), Enqueue(2));
    steps := steps + [Enqueue(2)];
    Further(steps, ENQUEUED, Requeue(1));
    steps := steps + [Requeue(1)];
    Further(steps, REQUEUED, Start(2, 1));
    steps := steps + [Start(2, 1)];
    Further(steps, LOADED, Enqueue(1));
    steps := steps + [Enqueue(1)];
    Further(steps, AGAIN, Start(1, 2));
    steps := steps + [Start(1, 2)];
    Further(steps, BOTH, Finish(2, Succeeds));
    steps := steps + [Finish(2, Succeeds)];
    Further(steps, OWING, Wake(1));
    steps := steps + [Wake(1)];
    Further(steps, WOKEN, Finish(1, Retryable));
    steps := steps + [Finish(1, Retryable)];
  }

  // The worker of job 1 stores DONE and dies, or gives up, before it wakes job 2. Nothing
  // that happens by itself ever releases job 2.
  lemma AbandonedChildIsLost(further: seq<Step>) returns (steps: seq<Step>)
    requires Runnable(Queue(Two(Done, 1, WaitDependencies, 0), map[], {}, {1}), further) && AllUnattended(further)
    ensures Runnable(CREATED, steps) && Run(CREATED, steps) == Queue(Two(Done, 1, WaitDependencies, 0), map[], {}, {1})
    ensures Lost(Run(Run(CREATED, steps), further), 2)
  {
    var lost := Queue(Two(Done, 1, WaitDependencies, 0), map[], {}, {1});
    NobodyOwes(0);
    LostForEver(lost, further, 2);
    steps := FirstSteps();
    assert Enabled(FIRST_DONE, Abandon(1)) && Next(FIRST_DONE, Abandon(1)) == lost;
    hide Next, Two, Enabled, Lost, NoLostWakeUp;
    Further(steps, FIRST_DONE, Abandon(1));
    steps := steps + [Abandon(1)];
  }

  lemma OnlyParent()
    ensures LastParentOf(CREATED, 1, 2)
  {
    TwoParents(Pending, 0, WaitDependencies, 0);
  }

  // Running job 1 by hand finishes it without waking job 2.
  lemma RunNowLosesWakeUp()
    ensures Enabled(CREATED, RunNow(1, Succeeds)) && !NoLostWakeUp(Next(CREATED, RunNow(1, Succeeds)))
  {
    hide NoLostWakeUp, ReleaseSafe, Next, LastParentOf, UpToDate, Synced, WellLinked, AllParentsDone, InitialQueue;
    CreatedByDelay();
    LinkedWhenSafe(CREATED);
    OnlyParent();
    StepStrandsExactly(CREATED, RunNow(1, Succeeds));
  }

  // Jobs 1 -> 2 -> 3: cancelling 1 cancels 2 and leaves 3 waiting for a cancelled job,
  // although the documentation says that all dependent jobs are cancelled.
  function Three(s1: State, s2: State, s3: State): Rows {
    map[1 := Job(s1, 0, 5, {}, {2}, Some(0)),
        2 := Job(s2, 0, 5, {1}, {3}, Some(0)),
        3 := Job(s3, 0, 5, {2}, {}, Some(0))]
  }

  lemma CancelStopsAtChildren()
    ensures var q := Queue(Three(Failed, WaitDependencies, WaitDependencies), map[], {}, {});
      Next(q, Cancel(1)).rows == Three(Cancelled, Cancelled, WaitDependencies)
  {
    var rows := Three(Cancelled, WaitDependencies, WaitDependencies);
    assert 1 in rows[2].dependsOn && 2 !in rows[1].dependsOn;
    assert Selected(rows, 1, Cancelled, 2);
    assert !Selected(rows, 1, Cancelled, 3);
  }
}

/** Whole runs of the Drive driver: when its cache stays true to the remote, and
    a short run where it does not. */
module DriveRuns {
  import opened GoStrings
  import opened Paths
  import opened DriveTree
  import opened DriveCache
  import opened Options

  /** What a caller would have to check before the call, and that the reply to a
      deletion or a move is not lost, nor a double's id cached. */
  ghost predicate Guard(w: World, o: Op) {
    match o
    case Looked => true
    case Made(p, put) => Normal(p) && (put ==> Clean(Segments(p)))
    case Doubled(_, put) => !put
    case Dropped(p) => Normal(p) && OnlyCached(w.cache, p)
    case DroppedUnheard(_) => false
    case Moved(op, np) => Normal(op) && Normal(np) && RenameKeeps(w.cache, op, np)
    case MovedUnheard(_, _) => false
    case Touched(_, np) => Normal(np) && Clean(Segments(np))
    case Covered(_, _, _) => false
  }

  ghost predicate True(w: World) {
    WellFormed(w.es, w.next) && Coherent(w.es, w.cache)
  }

  lemma LearnedCoherent(es: Edges, cache: Cache, cache': Cache)
    requires Coherent(es, cache) && Learned(es, cache, cache')
    ensures "" in cache' ==> "" in cache
    ensures Coherent(es, cache')
  {
    hide Segments, Components, Resolve;
  }

  /** From a true cache, an operation leaves a true cache exactly when its guard
      held. */
  lemma StepExact(w: World, o: Op, w': World)
    requires True(w) && Takes(w, o, w')
    ensures WellFormed(w'.es, w'.next)
    ensures Coherent(w'.es, w'.cache) <==> Guard(w, o)
  {
    hide Segments, Components, Lookup, SplitParent, RenameKeeps, OnlyCached;
    match o
    case Looked =>
      LearnedCoherent(w.es, w.cache, w'.cache);
    case Made(p, put) =>
      MadeExact(w, p, put, w');
    case Doubled(p, put) =>
      DoubledExact(w, p, put, w');
    case Dropped(p) =>
      DroppedExact(w, p, w');
    case DroppedUnheard(p) =>
      LearnedCoherent(w.es, w.cache, w'.cache);
      RemoveExact(w.es, w.next, w'.cache, p, Resolve(w.es, p).value);
    case Moved(op, np) =>
      MovedExact(w, op, np, w');
    case MovedUnheard(op, np) =>
      MovedUnheardExact(w, op, np, w');
    case Touched(op, np) =>
      TouchedExact(w, op, np, w');
    case Covered(op, np, heard) =>
      CoveredExact(w, op, np, heard, w');
  }

  lemma DroppedExact(w: World, p: string, w': World)
    requires True(w) && Takes(w, Dropped(p), w')
    ensures WellFormed(w'.es, w'.next)
    ensures Coherent(w'.es, w'.cache) <==> OnlyCached(w.cache, p)
  {
    hide Segments, Components, Lookup, OnlyCached, Resolve, Along, Learned, WellFormed, Coherent;
    var c :| Learned(w.es, w.cache, c) && Along(w.cache, c, p)
      && Resolve(w.es, p).Some? && Resolve(w.es, p) != Some(Root)
      && w' == State(Deleted(w.es, Resolve(w.es, p).value), w.next, c - {p});
    LearnedCoherent(w.es, w.cache, c);
    LearnedGrows(w.es, w.cache, c);
    AlongKeepsOnly(w.cache, c, p);
    DeletedWellFormed(w.es, w.next, Resolve(w.es, p).value);
    RemoveExact(w.es, w.next, c, p, Resolve(w.es, p).value);
  }

  lemma LearnedGrows(es: Edges, cache: Cache, cache': Cache)
    requires Learned(es, cache, cache')
    ensures forall q :: q in cache ==> q in cache'
  {
    hide Segments, Components, Resolve;
  }

  lemma TouchedExact(w: World, op: string, np: string, w': World)
    requires True(w) && Takes(w, Touched(op, np), w')
    ensures WellFormed(w'.es, w'.next)
    ensures Coherent(w'.es, w'.cache) <==> Clean(Segments(np))
  {
    hide Segments, Components, Lookup, SplitParent, Resolve;
    var c :| Learned(w.es, w.cache, c) && OntoItself(w.es, op, np)
      && w' == State(w.es, w.next, (c - {op})[np := Resolve(w.es, op).value]);
    LearnedCoherent(w.es, w.cache, c);
    TouchExact(w.es, w.next, c, op, np, Resolve(w.es, op).value);
  }

  lemma CoveredExact(w: World, op: string, np: string, heard: bool, w': World)
    requires True(w) && Takes(w, Covered(op, np, heard), w')
    ensures WellFormed(w'.es, w'.next) && !Coherent(w'.es, w'.cache)
  {
    hide Segments, Components, Lookup, SplitParent, Resolve, Learned, WellFormed, Coherent;
    var c :| Learned(w.es, w.cache, c) && op in c && OntoAnother(w.es, op, np)
      && w' == State(Deleted(w.es, Resolve(w.es, op).value), w.next,
                     if heard then (c - {op})[np := Resolve(w.es, op).value] else c);
    LearnedCoherent(w.es, w.cache, c);
    DeletedWellFormed(w.es, w.next, Resolve(w.es, op).value);
    CoverExact(w.es, w.next, c, op, np, Resolve(w.es, op).value);
  }

  lemma MovedUnheardExact(w: World, op: string, np: string, w': World)
    requires True(w) && Takes(w, MovedUnheard(op, np), w')
    ensures WellFormed(w'.es, w'.next) && !Coherent(w'.es, w'.cache)
  {
    hide Segments, Components, Lookup, SplitParent;
    var id, parent, name := Resolve(w.es, op).value, ParentOf(w.es, np).value, SplitParent(np).1;
    LearnedCoherent(w.es, w.cache, w'.cache);
    NameHasNoSlash(np);
    IdKnown(w.es, w.next, op, id);
    IdKnown(w.es, w.next, NormPath(SplitParent(np).0), parent);
    RelinkedWellFormed(w.es, w.next, id, parent, name);
    RenameExact(w.es, w.next, w'.cache, op, np, id, parent);
  }

  lemma DoubledExact(w: World, p: string, put: bool, w': World)
    requires True(w) && Takes(w, Doubled(p, put), w')
    ensures WellFormed(w'.es, w'.next)
    ensures Coherent(w'.es, w'.cache) <==> !put
  {
    hide Segments, Components, Lookup, SplitParent, Vacant, Resolve;
    var c :| Learned(w.es, w.cache, c) && !Vacant(w.es, p)
      && w' == State(w.es, w.next + 1, if put then c[p := Item(w.next)] else c);
    LearnedCoherent(w.es, w.cache, c);
    DoubleMisleads(w.es, w.next, c, p);
  }

  lemma MadeExact(w: World, p: string, put: bool, w': World)
    requires True(w) && Takes(w, Made(p, put), w')
    ensures WellFormed(w'.es, w'.next)
    ensures Coherent(w'.es, w'.cache) <==> (put ==> Clean(Segments(p)))
  {
    hide Segments, Components, Lookup, SplitParent;
    var parent, name := ParentOf(w.es, p).value, SplitParent(p).1;
    var c :| Learned(w.es, w.cache, c) && ParentOf(w.es, p).Some?
      && w' == State(Created(w.es, parent, name, Item(w.next)), w.next + 1, if put then c[p := Item(w.next)] else c);
    LearnedCoherent(w.es, w.cache, c);
    NameHasNoSlash(p);
    IdKnown(w.es, w.next, NormPath(SplitParent(p).0), parent);
    CreatedWellFormed(w.es, w.next, parent, name);
    CreatedCoherent(w.es, c, parent, name, Item(w.next));
    PutCreated(w.es, w'.es, w'.next, c, p, parent, name, Item(w.next));
  }

  lemma MovedExact(w: World, op: string, np: string, w': World)
    requires True(w) && Takes(w, Moved(op, np), w')
    ensures WellFormed(w'.es, w'.next)
    ensures Coherent(w'.es, w'.cache) <==> RenameKeeps(w.cache, op, np)
  {
    hide Segments, Components, Lookup, SplitParent, RenameKeeps;
    var id, parent, name := Resolve(w.es, op).value, ParentOf(w.es, np).value, SplitParent(np).1;
    var c :| Learned(w.es, w.cache, c) && (RenameKeeps(c, op, np) <==> RenameKeeps(w.cache, op, np))
      && w' == State(Relinked(w.es, id, parent, name), w.next, (c - {op})[np := id]);
    LearnedCoherent(w.es, w.cache, c);
    NameHasNoSlash(np);
    IdKnown(w.es, w.next, op, id);
    IdKnown(w.es, w.next, NormPath(SplitParent(np).0), parent);
    RelinkedWellFormed(w.es, w.next, id, parent, name);
    RenameExact(w.es, w.next, c, op, np, id, parent);
  }

  ghost predicate IsRun(ws: seq<World>, os: seq<Op>) {
    |ws| == |os| + 1 && forall i :: 0 <= i < |os| ==> Takes(ws[i], os[i], ws[i + 1])
  }

  /** Along any run from a true cache, the cache is true at every point exactly
      when every operation's guard held when it was called. */
  lemma {:induction false} RunStaysTrue(ws: seq<World>, os: seq<Op>)
    requires IsRun(ws, os) && True(ws[0])
    ensures (forall i :: 0 <= i < |ws| ==> True(ws[i])) <==> (forall i :: 0 <= i < |os| ==> Guard(ws[i], os[i]))
    decreases |os|
  {
    hide Guard, Takes, True;
    if os != [] {
      var os', ws' := os[..|os| - 1], ws[..|ws| - 1];
      assert forall i :: 0 <= i < |ws'| ==> ws'[i] == ws[i];
      assert forall i :: 0 <= i < |os'| ==> os'[i] == os[i];
      RunStaysTrue(ws', os');
      var n := |os| - 1;
      assert Takes(ws[n], os[n], ws[n + 1]);
      if forall i :: 0 <= i < |ws'| ==> True(ws'[i]) {
        assert True(ws'[n]);
        GuardIsTruth(ws[n], os[n], ws[n + 1]);
        forall i | 0 <= i < |os|
          ensures Guard(ws[i], os[i]) || i == n
        {
          if i < n { assert Guard(ws'[i], os'[i]); }
        }
        forall i | 0 <= i < |ws|
          ensures True(ws[i]) || i == n + 1
        {
          if i <= n { assert True(ws'[i]); }
        }
      } else {
        var i :| 0 <= i < |ws'| && !True(ws'[i]);
        assert !True(ws[i]);
        var j :| 0 <= j < |os'| && !Guard(ws'[j], os'[j]);
        assert !Guard(ws[j], os[j]);
      }
    }
  }

  lemma GuardIsTruth(w: World, o: Op, w': World)
    requires True(w) && Takes(w, o, w')
    ensures True(w') <==> Guard(w, o)
  {
    hide Guard, Takes;
    StepExact(w, o, w');
  }

  // ------------------------------------------------ the guard is needed

  /** "/d" and "/d/f" exist and are both cached; "/d" is removed. The cache
      keeps "/d/f", which no longer names anything, and so resolving it answers
      the dead id without asking the remote. */
  lemma StaleDescendant() returns (before: World, after: World)
    ensures True(before) && Takes(before, Dropped("/d"), after) && IsRun([before, after], [Dropped("/d")])
    ensures Resolve(after.es, "/d/f") == None && "/d/f" in after.cache
    ensures !Coherent(after.es, after.cache)
  {
    hide Segments, Components, Lookup;
    var es, cache := ExampleTree(), map["/" := Root, "" := Root, "/d" := Item(0), "/d/f" := Item(1)];
    PathOfExample();
    ExampleResolves();
    before, after := State(es, 2, cache), State(Deleted(es, Item(0)), 2, cache - {"/d"});
    assert Coherent(es, cache);
    DeletedExact(es, 2, Item(0), ["d"], ["d", "f"]);
    hide Coherent, WellFormed, Resolve;
    DropHere(before, after, "/d", Item(0));
    RemoveExact(es, 2, cache, "/d", Item(0));
    assert "/d/f" in cache && ["d"] <= ["d", "f"];
    assert !OnlyCached(cache, "/d");
  }

  lemma DropHere(w: World, w': World, p: string, id: Id)
    requires Normal(p) && Resolve(w.es, p) == Some(id) && id != Root
    requires w' == State(Deleted(w.es, id), w.next, w.cache - {p})
    ensures Takes(w, Dropped(p), w')
  {
    hide Segments, Components, Resolve;
    assert Learned(w.es, w.cache, w.cache) && Along(w.cache, w.cache, p);
  }

  /** "/f" exists and is not cached; its lookup fails once during an upload, whose
      POST then makes a second "f". The cache has the double, which is not the
      entry that "/f" names. */
  lemma BlindUpload() returns (before: World, after: World)
    ensures True(before) && Resolve(before.es, "/f") == Some(Item(0)) && !Vacant(before.es, "/f")
    ensures Takes(before, Doubled("/f", true), after)
    ensures Resolve(after.es, "/f") == Some(Item(0)) && "/f" in after.cache && after.cache["/f"] == Item(1)
  {
    hide Segments, Components, Lookup;
    var es, cache := OneFile(), map["/" := Root, "" := Root];
    OneFileResolves();
    before, after := State(es, 1, cache), State(es, 2, cache["/f" := Item(1)]);
    assert Coherent(es, cache);
    hide WellFormed, Coherent, Resolve, Vacant, OneFile;
    ResolvedIsTaken(es, 1, "/f");
    DoubleHere(es, 1, cache, "/f", true);
  }

  function OneFile(): Edges {
    map[(Root, "f") := Item(0)]
  }

  lemma OneFileResolves()
    ensures WellFormed(OneFile(), 1)
    ensures Resolve(OneFile(), "/") == Some(Root) && Resolve(OneFile(), "/f") == Some(Item(0))
  {
    ChildSegments("/", "f");
    assert "/" + "f" == "/f";
    LookupSnoc(OneFile(), Root, [], "f");
  }

  function ExampleTree(): Edges {
    map[(Root, "d") := Item(0), (Item(0), "f") := Item(1)]
  }

  lemma ExampleResolves()
    ensures WellFormed(ExampleTree(), 2)
    ensures Lookup(ExampleTree(), Root, []) == Some(Root)
    ensures Lookup(ExampleTree(), Root, ["d"]) == Some(Item(0))
    ensures Lookup(ExampleTree(), Root, ["d", "f"]) == Some(Item(1))
  {
    var es := ExampleTree();
    LookupSnoc(es, Root, [], "d");
    LookupSnoc(es, Root, ["d"], "f");
    assert [] + ["d"] == ["d"] && ["d"] + ["f"] == ["d", "f"];
  }

  lemma PathOfExample()
    ensures Segments("/") == [] && Segments("/d") == ["d"] && Segments("/d/f") == ["d", "f"]
  {
    ChildSegments("/", "d");
    ChildSegments("/d", "f");
    assert "/" + "d" == "/d" && "/d" + "/" + "f" == "/d/f";
    assert [] + ["d"] == ["d"] && ["d"] + ["f"] == ["d", "f"];
  }
}

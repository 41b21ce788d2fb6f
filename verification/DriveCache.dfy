/** The Google Drive driver's path-to-id cache, and what keeps it true to the
    remote tree. */
module DriveCache {
  import opened GoStrings
  import opened Octets
  import opened Paths
  import opened Options
  import opened DriveTree

  datatype Error = NotConnected | NotFound | Remote
  datatype Result<+T> = Ok(value: T) | Err(error: Error)

  type Cache = map<string, Id>

  /** Every cached path leads to the id it is cached under; the root's two
      spellings are seeded. */
  ghost predicate Coherent(es: Edges, cache: Cache) {
    && "/" in cache && cache["/"] == Root
    && ("" in cache ==> cache[""] == Root)
    && forall q :: q in cache && q != "" ==> Normal(q) && Resolve(es, q) == Some(cache[q])
  }

  /** `cache'` adds only correct entries to `cache`. */
  ghost predicate Learned(es: Edges, cache: Cache, cache': Cache) {
    && (forall q :: q in cache ==> q in cache' && cache'[q] == cache[q])
    && (forall q :: q in cache' && q !in cache ==> Normal(q) && Resolve(es, q) == Some(cache'[q]))
  }

  /** The entries that resolving `p` added: `p` and paths of its ancestors. */
  ghost predicate Along(cache: Cache, cache': Cache, p: string)
    requires Normal(p)
  {
    forall q :: q in cache' && q !in cache ==>
      Normal(q) && Segments(q) <= Segments(p) && (q == p || |Segments(q)| < |Segments(p)|)
  }

  /** No cached path but `p` itself runs to or through the entry at `p`: no
      cached descendant, and no second spelling of `p`. */
  ghost predicate OnlyCached(cache: Cache, p: string)
    requires Normal(p)
  {
    forall q :: q in cache && q != p && Normal(q) ==> !(Segments(p) <= Segments(q))
  }

  datatype Listed = Listed(name: string, path: string, id: Id)

  function Names(page: seq<(string, Id)>): set<string> {
    set e <- page :: e.0
  }

  lemma NoNames(page: seq<(string, Id)>)
    ensures Names(page[..0]) == {}
  {
  }

  lemma NamesAppend(page: seq<(string, Id)>, e: (string, Id))
    ensures Names(page + [e]) == Names(page) + {e.0}
  {
    assert (page + [e])[|page|] == e;
    forall n | n in Names(page)
      ensures n in Names(page + [e])
    {
      var i :| 0 <= i < |page| && page[i].0 == n;
      assert (page + [e])[i] == page[i];
    }
  }

  /** addParents and removeParents of a move. */
  datatype Move = Move(add: Id, remove: Id)

  /** The entry exists, under the parent that a move would take it from. */
  ghost predicate Linked(es: Edges, id: Id, move: Option<Move>) {
    exists e :: e in es && es[e] == id && (move.Some? ==> move.value.remove == e.0)
  }

  /** An entry that came under a name which its folder had given away already. */
  datatype Double = Double(parent: Id, name: string, id: Id)

  /** The name is another entry's there. */
  ghost predicate TakenBy(es: Edges, parent: Id, name: string, id: Id) {
    (parent, name) in es && es[(parent, name)] != id
  }

  /** The entry hangs in the folder by the name, or is a double there if the name
      was taken. */
  ghost predicate Rehung(es: Edges, ds: seq<Double>, es': Edges, ds': seq<Double>, id: Id, parent: Id, name: string) {
    if TakenBy(es, parent, name, id)
    then es' == Deleted(es, id) && ds' == ds + [Double(parent, name, id)]
    else es' == Relinked(es, id, parent, name) && ds' == ds
  }

  ghost predicate Patched(es: Edges, ds: seq<Double>, es': Edges, ds': seq<Double>, id: Id, name: string, move: Option<Move>) {
    exists e :: e in es && es[e] == id && (move.Some? ==> move.value.remove == e.0)
      && Rehung(es, ds, es', ds', id, if move.Some? then move.value.add else e.0, name)
  }

  /** The remote, answering the driver's requests. Any request may fail; a
      change that was reported failed may still have been `applied`. */
  class Remote {
    const reliable: bool
    var edges: Edges
    var next: nat
    var doubles: seq<Double>
    var content: map<Id, Bytes>
    var requests: nat

    ghost predicate Valid()
      reads this
    {
      WellFormed(edges, next)
    }

    constructor (reliable: bool)
      ensures Valid() && this.reliable == reliable && edges == map[] && doubles == [] && content == map[]
    {
      this.reliable, edges, next, doubles, content, requests := reliable, map[], 0, [], map[], 0;
    }

    /** Two independent ways for a request to go wrong. */
    method Faults() returns (lost: bool, refused: bool)
      ensures reliable ==> !lost && !refused
    {
      lost, refused := *, *;
      lost, refused := lost && !reliable, refused && !reliable;
    }

    /** files?q='parent' in parents and name='name': at most one answer. */
    method Query(parent: Id, name: string) returns (ok: bool, found: Option<Id>)
      modifies this`requests
      ensures requests == old(requests) + 1
      ensures ok ==> found == if (parent, name) in edges then Some(edges[(parent, name)]) else None
      ensures reliable ==> ok
    {
      requests := requests + 1;
      var fault, _ := Faults();
      ok := !fault;
      found := if (parent, name) in edges then Some(edges[(parent, name)]) else None;
    }

    /** One page of a folder's entries; `rest` names those still to come. */
    method List(parent: Id, todo: set<string>) returns (ok: bool, page: seq<(string, Id)>, rest: set<string>)
      requires forall n :: n in todo ==> (parent, n) in edges
      modifies this`requests
      ensures requests == old(requests) + 1
      ensures ok ==> rest <= todo && (rest != {} ==> rest < todo)
      ensures ok ==> Names(page) == todo - rest
      ensures ok ==> IsPage(edges, parent, page)
      ensures reliable ==> ok
    {
      requests := requests + 1;
      var fault, _ := Faults();
      ok := !fault;
      page, rest := [], todo;
      var more := true;
      while rest != {} && more
        invariant rest <= todo && Names(page) == todo - rest
        invariant forall e <- page :: (parent, e.0) in edges && e.1 == edges[(parent, e.0)]
        invariant forall i, j :: 0 <= i < j < |page| ==> page[i].0 != page[j].0
        invariant !more ==> rest < todo
        invariant requests == old(requests) + 1
        decreases rest
      {
        var n :| n in rest;
        NamesAppend(page, (n, edges[(parent, n)]));
        assert forall e <- page :: e.0 in Names(page);
        page := page + [(n, edges[(parent, n)])];
        rest := rest - {n};
        more := *;
      }
    }

    /** A name that is taken is given away again: the new entry is a double, and
        lookups go on finding the old one. */
    method Create(parent: Id, name: string, data: Option<Bytes>) returns (ok: bool, id: Option<Id>, ghost applied: bool)
      requires Valid() && '/' !in name && (parent.Item? ==> parent.n < next)
      modifies this
      ensures Valid()
      ensures applied ==> name != "" && next == old(next) + 1
      ensures applied && (parent, name) !in old(edges) ==>
        edges == Created(old(edges), parent, name, Item(old(next))) && doubles == old(doubles)
      ensures applied && (parent, name) in old(edges) ==>
        edges == old(edges) && doubles == old(doubles) + [Double(parent, name, Item(old(next)))]
      ensures !applied ==> edges == old(edges) && next == old(next) && doubles == old(doubles)
      ensures content == if applied && data.Some? then old(content)[Item(old(next)) := data.value] else old(content)
      ensures ok ==> applied && (id.Some? ==> id.value == Item(old(next)))
      ensures reliable && name != "" ==> ok && id.Some?
    {
      requests := requests + 1;
      var lost, refused := Faults();
      var silent, _ := Faults();
      ok, id, applied := false, None, false;
      if name != "" && !refused {
        var made := Item(next);
        if (parent, name) in edges {
          doubles := doubles + [Double(parent, name, made)];
        } else {
          CreatedWellFormed(edges, next, parent, name);
          edges := Created(edges, parent, name, made);
        }
        if data.Some? {
          content := content[made := data.value];
        }
        next := next + 1;
        applied := true;
        ok := !lost;
        id := if silent then None else Some(made);
      }
    }

    /** PATCH of a file's content, which answers with its id, or leaves it out. */
    method Replace(id: Id, data: Bytes) returns (ok: bool, back: Option<Id>, ghost applied: bool)
      modifies this`content, this`requests
      ensures content == if applied then old(content)[id := data] else old(content)
      ensures ok ==> applied && (back.Some? ==> back.value == id)
      ensures reliable ==> ok
    {
      requests := requests + 1;
      var lost, refused := Faults();
      var silent, _ := Faults();
      ok, back, applied := false, None, false;
      if !refused {
        content := content[id := data];
        applied := true;
        ok := !lost;
        back := if silent then None else Some(id);
      }
    }

    method Delete(id: Id) returns (ok: bool, ghost applied: bool)
      requires Valid() && (id.Item? ==> id.n < next)
      modifies this`edges, this`requests
      ensures Valid()
      ensures applied ==> id != Root && edges == Deleted(old(edges), id)
      ensures !applied ==> edges == old(edges)
      ensures ok ==> applied
      ensures reliable && id != Root ==> ok
    {
      requests := requests + 1;
      var lost, refused := Faults();
      ok, applied := false, false;
      if id != Root && !refused {
        edges := Deleted(edges, id);
        applied := true;
        ok := !lost;
      }
    }

    method Hang(id: Id, parent: Id, name: string)
      requires Valid() && IsName(name) && id.Item? && id.n < next && (parent.Item? ==> parent.n < next)
      modifies this`edges, this`doubles
      ensures Valid() && Rehung(old(edges), old(doubles), edges, doubles, id, parent, name)
    {
      RehungWellFormed(edges, next, id, parent, name);
      hide WellFormed;
      if (parent, name) in edges && edges[(parent, name)] != id {
        doubles := doubles + [Double(parent, name, id)];
        edges := Deleted(edges, id);
      } else {
        edges := Relinked(edges, id, parent, name);
      }
    }

    /** PATCH of an entry's name, and of its parent when `move` is given. Under a
        name that is another entry's it becomes a double. */
    method Patch(id: Id, name: string, move: Option<Move>) returns (ok: bool, ghost applied: bool)
      requires Valid() && '/' !in name && (id.Item? ==> id.n < next)
      requires move.Some? && move.value.add.Item? ==> move.value.add.n < next
      modifies this`edges, this`doubles, this`requests
      ensures Valid()
      ensures applied ==> id != Root && name != "" && Patched(old(edges), old(doubles), edges, doubles, id, name, move)
      ensures !applied ==> edges == old(edges) && doubles == old(doubles)
      ensures ok ==> applied
      ensures reliable && name != "" && Linked(old(edges), id, move) ==> ok
    {
      requests := requests + 1;
      var lost, refused := Faults();
      ok, applied := false, false;
      if name != "" && !refused && exists e <- edges :: edges[e] == id {
        var e :| e in edges && edges[e] == id;
        if move.None? || move.value.remove == e.0 {
          var parent := if move.Some? then move.value.add else e.0;
          Hang(id, parent, name);
          applied := true;
          ok := !lost;
        }
      }
    }
  }

  lemma RehungWellFormed(es: Edges, next: nat, id: Id, parent: Id, name: string)
    requires WellFormed(es, next) && IsName(name)
    requires id.Item? && id.n < next && (parent.Item? ==> parent.n < next)
    ensures WellFormed(Deleted(es, id), next)
    ensures !TakenBy(es, parent, name, id) ==> WellFormed(Relinked(es, id, parent, name), next)
    ensures (parent, name) in es && es[(parent, name)] == id ==> Relinked(es, id, parent, name) == es
  {
    if (parent, name) in es && es[(parent, name)] == id {
      assert forall e :: e in es && e != (parent, name) ==> es[e] != id;
      assert Relinked(es, id, parent, name) == es;
    }
  }

  /** The entry that a path would name can be created: its folder, if there is
      one, has no entry of that name yet. */
  ghost predicate Vacant(es: Edges, p: string)
    requires Normal(p)
  {
    var (parent, name) := SplitParent(p);
    match Resolve(es, NormPath(parent)) case Some(id) => (id, name) !in es case None => true
  }

  // ---------------------------------------------- what one operation changes

  /** The remote tree and the driver's cache. */
  datatype World = State(es: Edges, next: nat, cache: Cache)

  /** A finished Mkdir or creating upload: resolving the folder may have taught
      the cache something, one entry is new, and its id may be cached. */
  ghost predicate MakeStep(w: World, w': World, p: string, put: bool)
    requires Normal(p)
  {
    exists c :: Learned(w.es, w.cache, c) && ParentOf(w.es, p).Some?
      && w' == State(Created(w.es, ParentOf(w.es, p).value, SplitParent(p).1, Item(w.next)), w.next + 1,
                     if put then c[p := Item(w.next)] else c)
  }

  lemma MakeFrom(es: Edges, next: nat, cache: Cache, learned: Cache, p: string, parent: Id, put: bool)
    requires Normal(p) && Learned(es, cache, learned) && ParentOf(es, p) == Some(parent)
    ensures MakeStep(State(es, next, cache),
                     State(Created(es, parent, SplitParent(p).1, Item(next)), next + 1,
                           if put then learned[p := Item(next)] else learned), p, put)
  {
  }

  /** A creation after some lookups is a creation from where they started. */
  lemma MakeLater(w: World, learned: Cache, w': World, p: string, put: bool)
    requires Normal(p) && Learned(w.es, w.cache, learned)
    requires MakeStep(State(w.es, w.next, learned), w', p, put)
    ensures MakeStep(w, w', p, put)
  {
    hide Segments, Components, SplitParent, Lookup, Resolve;
    var c :| Learned(w.es, learned, c) && ParentOf(w.es, p).Some?
      && w' == State(Created(w.es, ParentOf(w.es, p).value, SplitParent(p).1, Item(w.next)), w.next + 1,
                     if put then c[p := Item(w.next)] else c);
    assert Learned(w.es, w.cache, c);
  }

  /** A creation under a name that was taken: the tree that lookups see is as it
      was, and the new entry's id may be cached. */
  ghost predicate DoubleStep(w: World, w': World, p: string, put: bool)
    requires Normal(p)
  {
    exists c :: Learned(w.es, w.cache, c) && !Vacant(w.es, p)
      && w' == State(w.es, w.next + 1, if put then c[p := Item(w.next)] else c)
  }

  lemma DoubleHere(es: Edges, next: nat, cache: Cache, p: string, put: bool)
    requires Normal(p) && !Vacant(es, p)
    ensures DoubleStep(State(es, next, cache), State(es, next + 1, if put then cache[p := Item(next)] else cache), p, put)
  {
    hide Segments, Components, SplitParent, Lookup, Resolve, Vacant;
    assert Learned(es, cache, cache);
  }

  lemma DoubleFrom(w: World, learned: Cache, w': World, p: string, put: bool)
    requires Normal(p) && Learned(w.es, w.cache, learned) && DoubleStep(State(w.es, w.next, learned), w', p, put)
    ensures DoubleStep(w, w', p, put)
  {
    hide Segments, Components, SplitParent, Lookup, Resolve, Vacant;
    var c :| Learned(w.es, learned, c) && !Vacant(w.es, p)
      && w' == State(w.es, w.next + 1, if put then c[p := Item(w.next)] else c);
    assert Learned(w.es, w.cache, c);
  }

  /** The tree is as it was; the cache may have learned something. */
  ghost predicate LookStep(w: World, w': World) {
    w'.es == w.es && w'.next == w.next && Learned(w.es, w.cache, w'.cache)
  }

  /** A finished Remove: the entry is gone, and one path from the cache. */
  ghost predicate DropStep(w: World, w': World, p: string)
    requires Normal(p)
  {
    exists c :: Learned(w.es, w.cache, c) && Along(w.cache, c, p)
      && Resolve(w.es, p).Some? && Resolve(w.es, p) != Some(Root)
      && w' == State(Deleted(w.es, Resolve(w.es, p).value), w.next, c - {p})
  }

  /** A finished Rename: the entry hangs elsewhere, the old path left the cache,
      the new one is in it. */
  ghost predicate MoveStep(w: World, w': World, op: string, np: string)
    requires Normal(op) && Normal(np)
  {
    exists c :: Learned(w.es, w.cache, c) && (RenameKeeps(c, op, np) <==> RenameKeeps(w.cache, op, np))
      && Resolve(w.es, op).Some? && Resolve(w.es, op) != Some(Root) && ParentOf(w.es, np).Some? && np != "/"
      && w' == State(Relinked(w.es, Resolve(w.es, op).value, ParentOf(w.es, np).value, SplitParent(np).1), w.next,
                     (c - {op})[np := Resolve(w.es, op).value])
  }

  /** A Remove whose reply was lost: the entry is gone, and the cache still has
      its path. */
  ghost predicate DropLost(w: World, w': World, p: string)
    requires Normal(p)
  {
    && Learned(w.es, w.cache, w'.cache) && p in w'.cache
    && Resolve(w.es, p).Some? && Resolve(w.es, p) != Some(Root)
    && w'.es == Deleted(w.es, Resolve(w.es, p).value) && w'.next == w.next
  }

  /** A Rename whose reply was lost, likewise. */
  ghost predicate MoveLost(w: World, w': World, op: string, np: string)
    requires Normal(op) && Normal(np)
  {
    && Learned(w.es, w.cache, w'.cache) && op in w'.cache
    && Resolve(w.es, op).Some? && Resolve(w.es, op) != Some(Root) && ParentOf(w.es, np).Some? && np != "/"
    && w'.es == Relinked(w.es, Resolve(w.es, op).value, ParentOf(w.es, np).value, SplitParent(np).1)
    && w'.next == w.next
  }

  /** The new path is the entry's own place. */
  ghost predicate OntoItself(es: Edges, op: string, np: string)
    requires Normal(op) && Normal(np)
  {
    && CanMove(es, op, np) && (ParentOf(es, np).value, SplitParent(np).1) in es
    && es[(ParentOf(es, np).value, SplitParent(np).1)] == Resolve(es, op).value
  }

  /** The new path is another entry's place. */
  ghost predicate OntoAnother(es: Edges, op: string, np: string)
    requires Normal(op) && Normal(np)
  {
    CanMove(es, op, np) && TakenBy(es, ParentOf(es, np).value, SplitParent(np).1, Resolve(es, op).value)
  }

  /** A finished Rename of an entry onto itself: the tree is as it was. */
  ghost predicate TouchStep(w: World, w': World, op: string, np: string)
    requires Normal(op) && Normal(np)
  {
    exists c :: Learned(w.es, w.cache, c) && OntoItself(w.es, op, np)
      && w' == State(w.es, w.next, (c - {op})[np := Resolve(w.es, op).value])
  }

  /** A Rename onto another entry: the one that moved is a double now, which
      lookups do not find. */
  ghost predicate CoverStep(w: World, w': World, op: string, np: string, heard: bool)
    requires Normal(op) && Normal(np)
  {
    exists c :: Learned(w.es, w.cache, c) && op in c && OntoAnother(w.es, op, np)
      && w' == State(Deleted(w.es, Resolve(w.es, op).value), w.next,
                     if heard then (c - {op})[np := Resolve(w.es, op).value] else c)
  }

  /** When a rename that took effect leaves the cache true. */
  ghost predicate RenameTrue(w: World, op: string, np: string, heard: bool)
    requires Normal(op) && Normal(np)
  {
    if OntoItself(w.es, op, np) then heard ==> Clean(Segments(np))
    else heard && !OntoAnother(w.es, op, np) && RenameKeeps(w.cache, op, np)
  }

  // ------------------------------------------------------------- operations

  /** What an operation came to. Whatever leaves the tree alone, listings and
      refused requests among them, is `Looked`. A creation whose reply was lost
      is one that cached nothing, and one under a name that was taken makes a
      double, as does a move. */
  datatype Op =
    | Looked
    | Made(p: string, put: bool)
    | Doubled(p: string, put: bool)
    | Dropped(p: string)
    | DroppedUnheard(p: string)
    | Moved(op: string, np: string)
    | MovedUnheard(op: string, np: string)
    | Touched(op: string, np: string)
    | Covered(op: string, np: string, heard: bool)

  /** The step that the operation takes. */
  ghost predicate Takes(w: World, o: Op, w': World) {
    match o
    case Looked => LookStep(w, w')
    case Made(p, put) => Normal(p) && p != "/" && Vacant(w.es, p) && MakeStep(w, w', p, put)
    case Doubled(p, put) => Normal(p) && DoubleStep(w, w', p, put)
    case Dropped(p) => Normal(p) && DropStep(w, w', p)
    case DroppedUnheard(p) => Normal(p) && DropLost(w, w', p)
    case Moved(op, np) => Normal(op) && Normal(np) && Vacant(w.es, np) && MoveStep(w, w', op, np)
    case MovedUnheard(op, np) => Normal(op) && Normal(np) && Vacant(w.es, np) && MoveLost(w, w', op, np)
    case Touched(op, np) => Normal(op) && Normal(np) && TouchStep(w, w', op, np)
    case Covered(op, np, heard) => Normal(op) && Normal(np) && CoverStep(w, w', op, np, heard)
  }

  /** The operation that a creation, a removal or a rename was, by its outcome. */
  function Creating(p: string, made: bool, doubled: bool, put: bool): Op {
    if doubled then Doubled(p, put) else if made then Made(p, put) else Looked
  }

  function Removing(p: string, ok: bool, applied: bool): Op {
    if ok then Dropped(p) else if applied then DroppedUnheard(p) else Looked
  }

  ghost function Renaming(es: Edges, op: string, np: string, ok: bool, applied: bool): Op
    requires Normal(op) && Normal(np)
  {
    if !applied then Looked
    else if OntoItself(es, op, np) then (if ok then Touched(op, np) else Looked)
    else if OntoAnother(es, op, np) then Covered(op, np, ok)
    else if ok then Moved(op, np) else MovedUnheard(op, np)
  }

  lemma MoveFrom(w: World, learned: Cache, op: string, np: string)
    requires Normal(op) && Normal(np) && Learned(w.es, w.cache, learned)
    requires RenameKeeps(learned, op, np) <==> RenameKeeps(w.cache, op, np)
    requires Resolve(w.es, op).Some? && Resolve(w.es, op) != Some(Root) && ParentOf(w.es, np).Some? && np != "/"
    ensures MoveStep(w, State(Relinked(w.es, Resolve(w.es, op).value, ParentOf(w.es, np).value, SplitParent(np).1), w.next,
                              (learned - {op})[np := Resolve(w.es, op).value]), op, np)
  {
    hide RenameKeeps, Resolve, SplitParent;
  }

  class Driver {
    const remote: Remote
    var connected: bool
    var cache: Cache

    ghost predicate Valid()
      reads this, remote
    {
      remote.Valid() && Coherent(remote.edges, cache)
    }

    ghost function View(): World
      reads this, remote
    {
      State(remote.edges, remote.next, cache)
    }

    constructor (remote: Remote)
      requires remote.Valid()
      ensures Valid() && this.remote == remote && connected
    {
      this.remote, connected := remote, true;
      cache := map["/" := Root, "" := Root];
    }

    /** Answers as the uncached walk does, teaches the cache only what is true,
        and asks nothing when the path is already cached. */
    method ResolvePath(path: string) returns (r: Result<Id>)
      requires Valid()
      modifies this`cache, remote`requests
      ensures Valid() && Learned(remote.edges, old(cache), cache)
      ensures Along(old(cache), cache, NormPath(path))
      ensures Answers(remote.edges, NormPath(path), r)
      ensures r.Ok? ==> NormPath(path) in cache
      ensures remote.reliable ==> r != Err(Remote)
      ensures NormPath(path) in old(cache) ==>
        r == Ok(old(cache)[NormPath(path)]) && remote.requests == old(remote.requests) && cache == old(cache)
      ensures remote.requests <= old(remote.requests) + |Components(NormPath(path))|
    {
      var p := NormPath(path);
      if p == "/" {
        return Ok(Root);
      }
      if p in cache {
        return Ok(cache[p]);
      }
      r := WalkComponents(p);
    }

    /** resolvePath's loop. */
    method WalkComponents(p: string) returns (r: Result<Id>)
      requires Valid() && Normal(p) && p != "/"
      modifies this`cache, remote`requests
      ensures Valid() && Learned(remote.edges, old(cache), cache)
      ensures Along(old(cache), cache, p)
      ensures Answers(remote.edges, p, r)
      ensures r.Ok? ==> p in cache
      ensures remote.reliable ==> r != Err(Remote)
      ensures remote.requests <= old(remote.requests) + |Components(p)|
    {
      hide Segments, Resolve, Trail, Reached, Walked;
      var components := Split(TrimPrefix(p, "/"), "/");
      assert TrimPrefix(p, "/") == p[1..];
      assert components == Components(p);
      ghost var es, asked, cache0 := remote.edges, remote.requests, cache;
      var currentID, builtPath := Root, "";
      WalkStart(es, cache, p);
      var i := 0;
      while i < |components|
        invariant 0 <= i <= |components|
        invariant Walked(es, cache0, cache, p, i, currentID, builtPath)
        invariant remote.requests <= asked + i
      {
        var comp := components[i];
        WalkStep(es, remote.next, cache0, cache, p, i, currentID, builtPath);
        builtPath := builtPath + "/" + comp;
        i := i + 1;
        if builtPath in cache {
          currentID := cache[builtPath];
          assert Walked(es, cache0, cache, p, i, currentID, builtPath);
          continue;
        }
        var ok, found := remote.Query(currentID, comp);
        if !ok {
          return Err(Remote);
        }
        if found.None? {
          return Err(NotFound);
        }
        cache := cache[builtPath := found.value];
        currentID := found.value;
        assert Walked(es, cache0, cache, p, i, currentID, builtPath);
      }
      assert i == |Components(p)|;
      WalkDone(es, cache0, cache, p, currentID, builtPath);
      return Ok(currentID);
    }

    /** One entry of a page: listed under its path, and cached. */
    method AddChild(p: string, parentID: Id, page: seq<(string, Id)>, i: nat, out0: seq<Listed>, ghost cache0: Cache, ghost sent: set<string>)
      returns (out: seq<Listed>)
      requires remote.Valid() && Normal(p) && Resolve(remote.edges, p) == Some(parentID)
      requires IsPage(remote.edges, parentID, page) && i < |page| && sent !! Names(page)
      requires Filling(remote.edges, cache0, cache, parentID, p, out0, sent + Names(page[..i]))
      modifies this`cache
      ensures Filling(remote.edges, cache0, cache, parentID, p, out, sent + Names(page[..i + 1]))
    {
      hide Segments, Components, Lookup, Resolve;
      var (name, childID) := page[i];
      var childPath := if p == "/" then "/" + name else TrimRight(p, '/') + "/" + name;
      FillStep(remote.edges, remote.next, cache0, cache, parentID, p, out0, sent, page, i);
      if p != "/" {
        NoTrailing(p);
      }
      cache := cache[childPath := childID];
      out := out0 + [Listed(name, childPath, childID)];
    }

    /** One page of a listing: each entry in turn. */
    method AddPage(p: string, parentID: Id, page: seq<(string, Id)>, out0: seq<Listed>, ghost cache0: Cache, ghost sent: set<string>)
      returns (out: seq<Listed>)
      requires Valid() && Normal(p) && Resolve(remote.edges, p) == Some(parentID)
      requires Filling(remote.edges, cache0, cache, parentID, p, out0, sent) && sent !! Names(page)
      requires IsPage(remote.edges, parentID, page)
      modifies this`cache
      ensures Valid() && Filling(remote.edges, cache0, cache, parentID, p, out, sent + Names(page))
    {
      hide Segments, Components, Lookup, Resolve, Names;
      out := out0;
      var i := 0;
      NoNames(page);
      assert sent + {} == sent;
      while i < |page|
        invariant 0 <= i <= |page|
        invariant Filling(remote.edges, cache0, cache, parentID, p, out, sent + Names(page[..i]))
      {
        out := AddChild(p, parentID, page, i, out, cache0, sent);
        i := i + 1;
      }
      assert page[..i] == page;
    }

    /** Lists a folder page by page, caching every child. */
    method ListDir(path: string) returns (r: Result<seq<Listed>>)
      requires Valid()
      modifies this`cache, remote`requests
      ensures !connected ==> r == Err(NotConnected) && cache == old(cache)
      ensures Valid() && Learned(remote.edges, old(cache), cache)
      ensures r.Ok? ==>
        var p := NormPath(path);
        Resolve(remote.edges, p).Some? && IsFolder(remote.edges, Resolve(remote.edges, p).value, p, r.value)
        && (forall l <- r.value :: l.path in cache && cache[l.path] == l.id)
        && (forall e <- remote.edges :: e.0 == Resolve(remote.edges, p).value ==>
              exists l <- r.value :: l == Listed(e.1, ChildPath(p, e.1), remote.edges[e]))
        && (forall l <- r.value :: (Resolve(remote.edges, p).value, l.name) in remote.edges)
      ensures Takes(old(View()), Looked, View())
      ensures connected && remote.reliable ==> (r.Ok? <==> Resolve(remote.edges, NormPath(path)).Some?)
    {
      hide Segments, Components;
      if !connected {
        return Err(NotConnected);
      }
      var p := NormPath(path);
      NormPathFixes(path);
      var resolved := ResolvePath(p);
      if resolved.Err? {
        return Err(resolved.error);
      }
      r := ListFolder(p, resolved.value);
      if r.Ok? {
        EveryChild(remote.edges, resolved.value, p, r.value);
      }
    }

    /** ListDir's loop over the pages. */
    method ListFolder(p: string, parentID: Id) returns (r: Result<seq<Listed>>)
      requires Valid() && Normal(p) && Resolve(remote.edges, p) == Some(parentID)
      modifies this`cache, remote`requests
      ensures Valid() && Learned(remote.edges, old(cache), cache)
      ensures r.Ok? ==> IsFolder(remote.edges, parentID, p, r.value)
      ensures r.Ok? ==> forall l <- r.value :: l.path in cache && cache[l.path] == l.id
      ensures remote.reliable ==> r.Ok?
    {
      hide Segments, Components, Resolve;
      var out: seq<Listed> := [];
      var rest := ChildNames(remote.edges, parentID);
      ghost var all, cache0, es := rest, cache, remote.edges;
      assert all - rest == {};
      var first := true;
      while first || rest != {}
        invariant rest <= all && remote.Valid()
        invariant Filling(es, cache0, cache, parentID, p, out, all - rest)
        decreases first, rest
      {
        var ok, page, more := remote.List(parentID, rest);
        first := false;
        if !ok {
          return Err(Remote);
        }
        out := AddPage(p, parentID, page, out, cache0, all - rest);
        assert (all - rest) + Names(page) == all - more;
        rest := more;
      }
      assert all - rest == ChildNames(es, parentID);
      return Ok(out);
    }

    /** The POST that makes an entry, and the caching of its id. It makes a double
        exactly when it took effect and the name was taken. */
    method CreateEntry(p: string, parentID: Id, data: Option<Bytes>) returns (r: Result<()>, ghost put: bool, ghost doubled: bool)
      requires Valid() && Normal(p) && ParentOf(remote.edges, p) == Some(parentID)
      modifies this`cache, remote
      ensures remote.Valid() && (put ==> r.Ok?)
      ensures remote.next == old(remote.next) || remote.next == old(remote.next) + 1
      ensures doubled <==> remote.next != old(remote.next) && !Vacant(old(remote.edges), p)
      ensures remote.doubles == old(remote.doubles)
        + if doubled then [Double(parentID, SplitParent(p).1, Item(old(remote.next)))] else []
      ensures remote.content == if remote.next != old(remote.next) && data.Some?
        then old(remote.content)[Item(old(remote.next)) := data.value] else old(remote.content)
      ensures r.Ok? ==> remote.next != old(remote.next)
      ensures remote.next != old(remote.next) ==> p != "/"
      ensures Coherent(remote.edges, cache) <==> (put ==> !doubled && Clean(Segments(p)))
      ensures r.Ok? && !doubled ==> MakeStep(old(View()), View(), p, put)
      ensures !r.Ok? && !doubled ==> View() == old(View()) || MakeStep(old(View()), View(), p, false)
      ensures doubled ==> DoubleStep(old(View()), View(), p, put)
      ensures put && !doubled ==> Resolve(old(remote.edges), p) == None
      ensures remote.reliable && p != "/" ==> put
    {
      hide Segments, Components, SplitParent, Lookup, Resolve, MakeStep, DoubleStep;
      var name := SplitParent(p).1;
      NameHasNoSlash(p);
      ghost var es, next, cache0 := remote.edges, remote.next, cache;
      IdKnown(es, next, NormPath(SplitParent(p).0), parentID);
      var ok, id, applied := remote.Create(parentID, name, data);
      doubled := applied && (parentID, name) in es;
      if applied && !doubled {
        CreatedCoherent(es, cache, parentID, name, Item(next));
        MakeFrom(es, next, cache0, cache0, p, parentID, false);
      }
      if doubled {
        DoubleHere(es, next, cache, p, false);
        DoubleHere(es, next, cache, p, true);
      }
      if !ok {
        return Err(Remote), false, doubled;
      }
      put := id.Some?;
      if id.Some? {
        if doubled {
          DoubleMisleads(es, next, cache, p);
        } else {
          VacantUnresolved(es, next, p);
          PutCreated(es, remote.edges, remote.next, cache, p, parentID, name, id.value);
          MakeFrom(es, next, cache0, cache0, p, parentID, true);
        }
        cache := cache[p := id.value];
      }
      return Ok(()), put, doubled;
    }

    /** `put` tells whether the new folder's id was cached, `doubled` whether the
        name was taken and the folder is a second one. */
    method Mkdir(path: string) returns (r: Result<()>, ghost put: bool, ghost doubled: bool)
      requires Valid()
      modifies this`cache, remote
      ensures !connected ==> r == Err(NotConnected) && cache == old(cache) && remote.edges == old(remote.edges)
      ensures remote.Valid() && (put ==> r.Ok?)
      ensures doubled <==> remote.next != old(remote.next) && !Vacant(old(remote.edges), NormPath(path))
      ensures |remote.doubles| == |old(remote.doubles)| + if doubled then 1 else 0
      ensures remote.content == old(remote.content)
      ensures Coherent(remote.edges, cache) <==> (put ==> !doubled && Clean(Segments(NormPath(path))))
      ensures r.Ok? ==> remote.next != old(remote.next)
      ensures Takes(old(View()), Creating(NormPath(path), remote.next != old(remote.next), doubled, put), View())
      ensures connected && remote.reliable && NormPath(path) != "/" && ParentOf(old(remote.edges), NormPath(path)).Some? ==> put
    {
      hide Segments, Components, SplitParent, Lookup, Resolve, MakeStep, DoubleStep, Vacant;
      put, doubled := false, false;
      if !connected {
        return Err(NotConnected), false, false;
      }
      var p := NormPath(path);
      NormPathFixes(path);
      ghost var w := View();
      var resolved := ResolvePath(SplitParent(p).0);
      if resolved.Err? {
        return Err(resolved.error), false, false;
      }
      ghost var learned := cache;
      r, put, doubled := CreateEntry(p, resolved.value, None);
      FromLookup(w, learned, View(), p, put, doubled, r.Ok?);
    }

    /** uploadFile's lookups: the file, which may not exist yet, and its folder. */
    method FindTarget(p: string) returns (existing: Result<Id>, parent: Result<Id>)
      requires Valid() && Normal(p)
      modifies this`cache, remote`requests
      ensures Valid() && Learned(remote.edges, old(cache), cache)
      ensures existing.Ok? ==> Resolve(remote.edges, p) == Some(existing.value) && p in cache
      ensures p == "/" ==> existing.Ok?
      ensures parent.Ok? ==> ParentOf(remote.edges, p) == Some(parent.value)
      ensures remote.reliable ==> (existing.Ok? <==> Resolve(remote.edges, p).Some?)
      ensures remote.reliable ==> (parent.Ok? <==> ParentOf(remote.edges, p).Some?)
    {
      hide Segments, Components, SplitParent, Lookup, Resolve;
      NormPathFixes(p);
      existing := ResolvePath(p);
      parent := ResolvePath(SplitParent(p).0);
    }

    /** The PATCH of a file's content: the tree stays as it is, and the file holds
        the data, or as before if the PATCH did not take effect. */
    method ReplaceContent(p: string, id: Id, data: Bytes) returns (r: Result<()>)
      requires Valid() && Normal(p) && Resolve(remote.edges, p) == Some(id) && p in cache
      modifies this`cache, remote`content, remote`requests
      ensures Valid() && cache == old(cache)
      ensures r.Ok? ==> remote.content == old(remote.content)[id := data]
      ensures remote.content == old(remote.content) || remote.content == old(remote.content)[id := data]
      ensures remote.reliable ==> r.Ok?
    {
      hide Segments, Components, Lookup, Resolve;
      var ok, back, applied := remote.Replace(id, data);
      if !ok {
        return Err(Remote);
      }
      if back.Some? {
        cache := cache[p := back.value];
      }
      return Ok(());
    }

    /** uploadFile: an existing file keeps its id and gets the data, any other path
        is created with it. `blind` says that the file exists and looking it up
        failed: then, and only then, does an upload to an existing path make a
        double, if its POST takes effect; the double has the data, and the file is
        as it was. */
    method UploadFile(path: string, data: Bytes) returns (r: Result<()>, ghost put: bool, ghost blind: bool, ghost doubled: bool)
      requires Valid()
      modifies this`cache, remote
      ensures remote.Valid() && (put ==> r.Ok?)
      ensures blind ==> Resolve(old(remote.edges), NormPath(path)).Some? && !remote.reliable
      ensures doubled <==> remote.next != old(remote.next) && !Vacant(old(remote.edges), NormPath(path))
      ensures Resolve(old(remote.edges), NormPath(path)).Some? ==> (doubled <==> blind && remote.next != old(remote.next))
      ensures |remote.doubles| == |old(remote.doubles)| + if doubled then 1 else 0
      ensures Coherent(remote.edges, cache) <==>
        (put ==> !doubled && (Resolve(old(remote.edges), NormPath(path)).Some? || Clean(Segments(NormPath(path)))))
      ensures r.Ok? && remote.next == old(remote.next) ==> Resolve(old(remote.edges), NormPath(path)).Some? && NormPath(path) in cache
      ensures Takes(old(View()), Creating(NormPath(path), remote.next != old(remote.next), doubled, put), View())
      ensures var to := if Resolve(old(remote.edges), NormPath(path)).Some? && !blind
                        then Resolve(old(remote.edges), NormPath(path)).value else Item(old(remote.next));
        && (r.Ok? ==> remote.content == old(remote.content)[to := data])
        && (remote.content == old(remote.content) || remote.content == old(remote.content)[to := data])
        && (r.Ok? ==> (Resolve(remote.edges, NormPath(path)) == Some(to)
                       <==> !doubled && (Resolve(old(remote.edges), NormPath(path)).Some? || Clean(Segments(NormPath(path))))))
      ensures remote.reliable && NormPath(path) != "/" && ParentOf(old(remote.edges), NormPath(path)).Some? ==> put
    {
      hide Segments, Components, SplitParent, Lookup, Resolve, MakeStep, DoubleStep, Vacant, WellFormed;
      put, doubled := false, false;
      var p := NormPath(path);
      ghost var w := View();
      var existing, resolved := FindTarget(p);
      blind := existing.Err? && Resolve(remote.edges, p).Some?;
      if resolved.Err? {
        return Err(resolved.error), false, blind, false;
      }
      if existing.Ok? {
        r := ReplaceContent(p, existing.value, data);
        return r, r.Ok?, false, false;
      }
      ghost var learned := cache;
      ResolvedIsTaken(remote.edges, remote.next, p);
      r, put, doubled := CreateEntry(p, resolved.value, Some(data));
      FromLookup(w, learned, View(), p, put, doubled, r.Ok?);
      if r.Ok? {
        LandsThere(w, View(), p, put, doubled);
      }
    }

    /** Remove deletes the entry and drops one cached path. What the cache then
        says is true exactly when the deletion is known to have happened or not
        to have, and no other cached path ran through the entry. */
    method Remove(path: string) returns (r: Result<()>, ghost applied: bool)
      requires Valid()
      modifies this`cache, remote`edges, remote`requests
      ensures !connected ==> r == Err(NotConnected) && cache == old(cache) && remote.edges == old(remote.edges)
      ensures remote.Valid() && (r.Ok? ==> applied)
      ensures !applied ==> remote.edges == old(remote.edges)
      ensures applied ==>
        Resolve(old(remote.edges), NormPath(path)).Some?
        && remote.edges == Deleted(old(remote.edges), Resolve(old(remote.edges), NormPath(path)).value)
      ensures Coherent(remote.edges, cache) <==> (applied ==> r.Ok? && OnlyCached(old(cache), NormPath(path)))
      ensures Takes(old(View()), Removing(NormPath(path), r.Ok?, applied), View())
      ensures connected && remote.reliable ==>
        (r.Ok? <==> Resolve(old(remote.edges), NormPath(path)).Some? && Resolve(old(remote.edges), NormPath(path)) != Some(Root))
    {
      hide Segments, Components, Lookup, OnlyCached, Resolve, WellFormed, Takes;
      applied := false;
      if !connected {
        LookedIs(View(), cache);
        return Err(NotConnected), false;
      }
      var p := NormPath(path);
      NormPathFixes(path);
      ghost var w := View();
      var resolved := ResolvePath(p);
      if resolved.Err? {
        LookedIs(w, cache);
        return Err(resolved.error), false;
      }
      ghost var learned := cache;
      IdKnown(w.es, w.next, p, resolved.value);
      var ok: bool;
      ok, applied := remote.Delete(resolved.value);
      if !ok {
        RemovedSo(w, learned, View(), p, false, applied);
        return Err(Remote), applied;
      }
      cache := cache - {p};
      RemovedSo(w, learned, View(), p, true, true);
      return Ok(()), true;
    }

    /** Rename's lookups: the entry to move, and where from and to if its folder
        changes. */
    method FindMove(op: string, np: string) returns (r: Result<(Id, Option<Move>)>)
      requires Valid() && Normal(op) && Normal(np)
      modifies this`cache, remote`requests
      ensures Valid() && Learned(remote.edges, old(cache), cache)
      ensures r.Ok? ==> IsMove(remote.edges, op, np, r.value.0, r.value.1) && op in cache
      ensures op != "/" && np != "/" && Resolve(remote.edges, op).Some? ==>
        (RenameKeeps(cache, op, np) <==> RenameKeeps(old(cache), op, np))
      ensures remote.reliable ==> (r.Ok? <==> Resolve(remote.edges, op).Some? && ParentOf(remote.edges, np).Some?)
    {
      hide Segments, Components, Lookup, RenameKeeps, Resolve, SplitParent;
      ghost var cache0, es, next := cache, remote.edges, remote.next;
      NormPathFixes(op);
      var resolved := ResolvePath(op);
      if Resolve(es, op).Some? {
        RenameAlong(es, next, cache0, cache, cache, cache, op, np);
      }
      if resolved.Err? {
        return Err(resolved.error);
      }
      var move := FindFolders(op, np);
      if move.Err? {
        return Err(move.error);
      }
      return Ok((resolved.value, move.value));
    }

    /** The ids of the old and the new folder, if they are spelled apart. */
    method FindFolders(op: string, np: string) returns (r: Result<Option<Move>>)
      requires Valid() && Normal(op) && Normal(np) && Resolve(remote.edges, op).Some?
      modifies this`cache, remote`requests
      ensures Valid() && Learned(remote.edges, old(cache), cache)
      ensures r.Ok? ==> IsMove(remote.edges, op, np, Resolve(remote.edges, op).value, r.value)
      ensures op != "/" && np != "/" ==> (RenameKeeps(cache, op, np) <==> RenameKeeps(old(cache), op, np))
      ensures remote.reliable ==> (r.Ok? <==> ParentOf(remote.edges, np).Some?)
    {
      hide Segments, Components, Lookup, RenameKeeps, Resolve, SplitParent;
      ghost var es, next, cache0 := remote.edges, remote.next, cache;
      EntryEdge(es, next, op, Resolve(es, op).value);
      var oldParent, newParent := SplitParent(op).0, SplitParent(np).0;
      if oldParent == newParent {
        return Ok(None);
      }
      var from := ResolvePath(oldParent);
      ghost var cache1 := cache;
      if from.Err? {
        RenameAlong(es, next, cache0, cache0, cache1, cache1, op, np);
        return Err(from.error);
      }
      var to := ResolvePath(newParent);
      RenameAlong(es, next, cache0, cache0, cache1, cache, op, np);
      if to.Err? {
        return Err(to.error);
      }
      return Ok(Some(Move(to.value, from.value)));
    }

    /** Rename hangs the entry elsewhere, drops the old path and caches the new
        one. Onto another entry it makes a double, and the cache is wrong; onto
        itself it changes nothing, and only the spelling of the new path counts. */
    method Rename(oldPath: string, newPath: string) returns (r: Result<()>, ghost applied: bool)
      requires Valid()
      modifies this`cache, remote`edges, remote`doubles, remote`requests
      ensures !connected ==> r == Err(NotConnected) && cache == old(cache) && !applied
      ensures remote.Valid() && (r.Ok? ==> applied)
      ensures !applied ==> remote.edges == old(remote.edges) && remote.doubles == old(remote.doubles)
      ensures applied ==>
        CanMove(old(remote.edges), NormPath(oldPath), NormPath(newPath))
        && Rehung(old(remote.edges), old(remote.doubles), remote.edges, remote.doubles,
                  Resolve(old(remote.edges), NormPath(oldPath)).value,
                  ParentOf(old(remote.edges), NormPath(newPath)).value, SplitParent(NormPath(newPath)).1)
      ensures Takes(old(View()), Renaming(old(remote.edges), NormPath(oldPath), NormPath(newPath), r.Ok?, applied), View())
      ensures Coherent(remote.edges, cache)
        <==> (applied ==> RenameTrue(old(View()), NormPath(oldPath), NormPath(newPath), r.Ok?))
      ensures connected && remote.reliable ==>
        (r.Ok? <==> CanMove(old(remote.edges), NormPath(oldPath), NormPath(newPath)))
    {
      hide Segments, Components, Lookup, RenameKeeps, OnlyCached, Resolve, WellFormed, Rehung, Takes, SplitParent;
      applied := false;
      if !connected {
        LookedIs(View(), cache);
        return Err(NotConnected), false;
      }
      var op, np := NormPath(oldPath), NormPath(newPath);
      ghost var w := View();
      NameHasNoSlash(np);
      var found := FindMove(op, np);
      if found.Err? {
        LookedIs(w, cache);
        return Err(found.error), false;
      }
      var (driveID, move) := found.value;
      ghost var learned, doubles0 := cache, remote.doubles;
      MoveIsClear(w.es, w.next, op, np, driveID, move);
      var ok: bool;
      ok, applied := remote.Patch(driveID, SplitParent(np).1, move);
      if applied {
        PatchMoved(w.es, w.next, doubles0, remote.edges, remote.doubles, op, np, driveID, move);
      }
      if !ok {
        RenamedSo(w, learned, View(), op, np, doubles0, remote.doubles, false, applied);
        return Err(Remote), applied;
      }
      cache := cache - {op};
      cache := cache[np := driveID];
      RenamedSo(w, learned, View(), op, np, doubles0, remote.doubles, true, true);
      return Ok(()), true;
    }
  }

  /** The entry at `op`, and the two folders' ids if they were spelled apart. */
  ghost predicate IsMove(es: Edges, op: string, np: string, id: Id, move: Option<Move>)
    requires Normal(op) && Normal(np)
  {
    && Resolve(es, op) == Some(id) && ParentOf(es, np).Some?
    && if move.Some? then ParentOf(es, np) == Some(move.value.add) && ParentOf(es, op) == Some(move.value.remove)
       else SplitParent(op).0 == SplitParent(np).0
  }

  /** The PATCH of a resolved move meets what the remote asks for. */
  lemma MoveIsClear(es: Edges, next: nat, op: string, np: string, id: Id, move: Option<Move>)
    requires WellFormed(es, next) && Normal(op) && Normal(np) && IsMove(es, op, np, id, move)
    ensures id.Item? ==> id.n < next
    ensures move.Some? && move.value.add.Item? ==> move.value.add.n < next
    ensures id != Root <==> Linked(es, id, move)
    ensures ParentOf(es, np).Some? && (id == Root <==> op == "/")
  {
    hide Components, Segments, Lookup;
    IdKnown(es, next, op, id);
    IdKnown(es, next, NormPath(SplitParent(np).0), ParentOf(es, np).value);
    EntryEdge(es, next, op, id);
    if id != Root {
      assert (ParentOf(es, op).value, SplitParent(op).1) in es;
    }
  }

  /** A listing in progress: the entries in `names` are listed and cached. */
  ghost predicate Filling(es: Edges, cache0: Cache, cache: Cache, parent: Id, p: string, out: seq<Listed>, names: set<string>) {
    && Coherent(es, cache) && Learned(es, cache0, cache)
    && ListedSoFar(es, parent, p, out, names)
    && forall l <- out :: l.path in cache && cache[l.path] == l.id
  }

  ghost predicate IsPage(es: Edges, parent: Id, page: seq<(string, Id)>) {
    && (forall e <- page :: (parent, e.0) in es && e.1 == es[(parent, e.0)])
    && (forall i, j :: 0 <= i < j < |page| ==> page[i].0 != page[j].0)
  }

  lemma FillStep(es: Edges, next: nat, cache0: Cache, cache: Cache, parent: Id, p: string, out: seq<Listed>,
                 sent: set<string>, page: seq<(string, Id)>, i: nat)
    requires WellFormed(es, next) && Normal(p) && Resolve(es, p) == Some(parent)
    requires IsPage(es, parent, page) && i < |page| && sent !! Names(page)
    requires Filling(es, cache0, cache, parent, p, out, sent + Names(page[..i]))
    ensures var (n, id) := page[i];
      var c := ChildPath(p, n);
      Filling(es, cache0, cache[c := id], parent, p, out + [Listed(n, c, id)], sent + Names(page[..i + 1]))
  {
    hide Resolve, Segments, Components, Names, ListedSoFar, Coherent, Learned, WellFormed;
    var (n, id) := page[i];
    var c, names := ChildPath(p, n), sent + Names(page[..i]);
    assert page[i] in page;
    NextName(page, i, sent);
    ChildOf(es, next, p, parent, n);
    CacheTrue(es, cache0, cache, c, id);
    CachedRight(es, cache, c, id);
    ListOneMore(es, parent, p, out, names, n);
    CachedStill(es, cache, parent, p, out, names, c, id, n);
  }

  lemma CachedRight(es: Edges, cache: Cache, p: string, id: Id)
    requires Coherent(es, cache) && Normal(p) && Resolve(es, p) == Some(id)
    ensures p in cache ==> cache[p] == id
  {
    hide Resolve;
  }

  /** Listing one more entry leaves the ones listed cached as they were. */
  lemma CachedStill(es: Edges, cache: Cache, parent: Id, p: string, out: seq<Listed>, names: set<string>, c: string, id: Id,
                    n: string)
    requires ListedSoFar(es, parent, p, out, names) && (parent, n) in es && es[(parent, n)] == id && c == ChildPath(p, n)
    requires forall l <- out :: l.path in cache && cache[l.path] == l.id
    requires c in cache ==> cache[c] == id
    ensures forall l <- out + [Listed(n, c, id)] :: l.path in cache[c := id] && cache[c := id][l.path] == l.id
  {
  }

  lemma NextName(page: seq<(string, Id)>, i: nat, sent: set<string>)
    requires i < |page| && sent !! Names(page)
    requires forall j, k :: 0 <= j < k < |page| ==> page[j].0 != page[k].0
    ensures page[i].0 !in sent + Names(page[..i])
    ensures sent + Names(page[..i + 1]) == sent + Names(page[..i]) + {page[i].0}
  {
    assert page[i] in page;
    assert page[i].0 in Names(page);
    NotYetSent(page, i);
    assert page[..i + 1] == page[..i] + [page[i]];
    NamesAppend(page[..i], page[i]);
  }

  lemma NoTrailing(p: string)
    requires Normal(p) && p != "/"
    ensures TrimRight(p, '/') == p
  {
  }

  function ChildNames(es: Edges, parent: Id): set<string> {
    set e <- es | e.0 == parent :: e.1
  }

  ghost predicate ListedSoFar(es: Edges, parent: Id, p: string, out: seq<Listed>, names: set<string>) {
    && (forall l <- out :: l.name in names && (parent, l.name) in es && l == Listed(l.name, ChildPath(p, l.name), es[(parent, l.name)]))
    && (forall i, j :: 0 <= i < j < |out| ==> out[i].name != out[j].name)
    && (forall n :: n in names ==> exists i :: 0 <= i < |out| && out[i].name == n)
  }

  /** The folder's entries, each once, under their paths and ids. */
  ghost predicate IsFolder(es: Edges, id: Id, p: string, out: seq<Listed>) {
    ListedSoFar(es, id, p, out, ChildNames(es, id))
  }

  lemma EveryChild(es: Edges, id: Id, p: string, out: seq<Listed>)
    requires IsFolder(es, id, p, out)
    ensures forall e <- es :: e.0 == id ==> exists l <- out :: l == Listed(e.1, ChildPath(p, e.1), es[e])
    ensures forall l <- out :: (id, l.name) in es
  {
    forall e | e in es && e.0 == id
      ensures exists l <- out :: l == Listed(e.1, ChildPath(p, e.1), es[e])
    {
      assert e.1 in ChildNames(es, id);
      var i :| 0 <= i < |out| && out[i].name == e.1;
      assert out[i] in out && e == (id, out[i].name);
    }
  }

  lemma ListOneMore(es: Edges, parent: Id, p: string, out: seq<Listed>, names: set<string>, n: string)
    requires ListedSoFar(es, parent, p, out, names) && (parent, n) in es && n !in names
    ensures ListedSoFar(es, parent, p, out + [Listed(n, ChildPath(p, n), es[(parent, n)])], names + {n})
  {
    var more := out + [Listed(n, ChildPath(p, n), es[(parent, n)])];
    assert more[|out|].name == n;
    forall m | m in names
      ensures exists i :: 0 <= i < |more| && more[i].name == m
    {
      var i :| 0 <= i < |out| && out[i].name == m;
      assert more[i] == out[i];
    }
    assert forall i :: 0 <= i < |out| ==> out[i] in out;
  }

  lemma NotYetSent(page: seq<(string, Id)>, i: nat)
    requires i < |page|
    requires forall j, k :: 0 <= j < k < |page| ==> page[j].0 != page[k].0
    ensures page[i].0 !in Names(page[..i])
  {
  }

  lemma ChildOf(es: Edges, next: nat, p: string, id: Id, n: string)
    requires WellFormed(es, next) && Normal(p) && Resolve(es, p) == Some(id) && (id, n) in es
    ensures var c := ChildPath(p, n); Normal(c) && c != "/" && Resolve(es, c) == Some(es[(id, n)])
  {
    assert IsName((id, n).1);
    ChildSegments(p, n);
    LookupSnoc(es, Root, Segments(p), n);
  }

  /** The answer is the uncached walk's, or a remote failure. */
  ghost predicate Answers(es: Edges, p: string, r: Result<Id>)
    requires Normal(p)
  {
    match r
    case Ok(id) => Resolve(es, p) == Some(id)
    case Err(e) => e == Remote || (e == NotFound && Resolve(es, p) == None)
  }

  /** resolvePath of `p` after `i` components: `cur` is where they lead, `built`
      is their path, and it is cached. */
  ghost predicate Reached(es: Edges, cache: Cache, components: seq<string>, i: nat, cur: Id, built: string) {
    && i <= |components|
    && built == (if i == 0 then "" else PathOf(components[..i]))
    && Lookup(es, Root, DropLead(components[..i])) == Some(cur)
    && (i > 0 ==> built in cache)
  }

  /** What was added so far lies along the segments `segs`, the last at `built`. */
  ghost predicate Trail(cache0: Cache, cache: Cache, segs: seq<string>, built: string) {
    && (segs == [] ==> cache == cache0)
    && forall q :: q in cache && q !in cache0 ==>
         Normal(q) && Segments(q) <= segs && (q == built || |Segments(q)| < |segs|)
  }

  ghost predicate Walked(es: Edges, cache0: Cache, cache: Cache, p: string, i: nat, cur: Id, built: string)
    requires Normal(p)
  {
    && Coherent(es, cache) && Learned(es, cache0, cache)
    && Reached(es, cache, Components(p), i, cur, built)
    && Trail(cache0, cache, DropLead(Components(p)[..i]), built)
  }

  lemma TrailStep(cache0: Cache, cache: Cache, segs: seq<string>, built: string, b: string, n: string, id: Id)
    requires Trail(cache0, cache, segs, built)
    ensures Trail(cache0, cache, segs + [n], b)
    ensures Normal(b) && Segments(b) == segs + [n] ==> Trail(cache0, cache[b := id], segs + [n], b)
  {
    forall q | q in cache && q !in cache0
      ensures Segments(q) <= segs + [n] && |Segments(q)| < |segs + [n]|
    {
      assert segs <= segs + [n];
    }
  }

  lemma TrailAlong(cache0: Cache, cache: Cache, p: string, segs: seq<string>, built: string)
    requires Normal(p) && Trail(cache0, cache, segs, built) && segs <= Segments(p)
    requires segs == Segments(p) ==> built == p
    ensures Along(cache0, cache, p)
  {
    forall q | q in cache && q !in cache0
      ensures Segments(q) <= Segments(p)
    {
      assert Segments(q) <= segs;
    }
  }

  lemma WalkStart(es: Edges, cache: Cache, p: string)
    requires Normal(p) && Coherent(es, cache)
    ensures Walked(es, cache, cache, p, 0, Root, "")
  {
    assert DropLead(Components(p)[..0]) == [];
  }

  lemma WalkDone(es: Edges, cache0: Cache, cache: Cache, p: string, cur: Id, built: string)
    requires Normal(p) && p != "/"
    requires Walked(es, cache0, cache, p, |Components(p)|, cur, built)
    ensures Resolve(es, p) == Some(cur) && p in cache && Along(cache0, cache, p)
    ensures Coherent(es, cache) && Learned(es, cache0, cache)
  {
    var components := Components(p);
    assert components[..|components|] == components;
    PathOfComponents(p);
    TrailAlong(cache0, cache, p, Segments(p), built);
  }

  /** One turn of the loop: a hit, a query that answers, or a query that does not. */
  lemma WalkStep(es: Edges, next: nat, cache0: Cache, cache: Cache, p: string, i: nat, cur: Id, built: string)
    requires WellFormed(es, next) && Normal(p) && p != "/" && i < |Components(p)|
    requires Walked(es, cache0, cache, p, i, cur, built)
    ensures var b, step := built + "/" + Components(p)[i], (cur, Components(p)[i]);
      && (b in cache ==> Walked(es, cache0, cache, p, i + 1, cache[b], b))
      && (b !in cache && step in es ==> Walked(es, cache0, cache[b := es[step]], p, i + 1, es[step], b))
      && (b !in cache && step !in es ==> Resolve(es, p) == None)
    ensures Coherent(es, cache) && Learned(es, cache0, cache) && Along(cache0, cache, p)
  {
    var components := Components(p);
    SplitParentPieces(p);
    PrefixSegments(components, i);
    TrailAlong(cache0, cache, p, DropLead(components[..i]), built);
    if i == 0 && components[0] == "" {
      LeadStep(es, cache0, cache, components, cur, built);
    } else {
      StepOnward(es, next, cache0, cache, components, i, cur, built);
    }
  }

  /** A leading empty component finds "/" in the cache and stays at the root. */
  lemma LeadStep(es: Edges, cache0: Cache, cache: Cache, components: seq<string>, cur: Id, built: string)
    requires components != [] && components[0] == ""
    requires Coherent(es, cache) && Reached(es, cache, components, 0, cur, built)
    requires Trail(cache0, cache, [], built)
    ensures built + "/" + components[0] == "/"
    ensures Reached(es, cache, components, 1, cache["/"], "/") && Trail(cache0, cache, DropLead(components[..1]), "/")
  {
    assert components[..1] == [""];
  }

  lemma StepOnward(es: Edges, next: nat, cache0: Cache, cache: Cache, components: seq<string>, i: nat, cur: Id, built: string)
    requires WellFormed(es, next) && i < |components|
    requires Coherent(es, cache) && Learned(es, cache0, cache)
    requires Reached(es, cache, components, i, cur, built) && Trail(cache0, cache, DropLead(components[..i]), built)
    requires forall k :: 0 <= k < |components| ==> '/' !in components[k]
    requires i > 0 || components[0] != ""
    ensures var b, step, segs := built + "/" + components[i], (cur, components[i]), DropLead(components[..i + 1]);
      && (b in cache ==> Reached(es, cache, components, i + 1, cache[b], b) && Trail(cache0, cache, segs, b))
      && (b !in cache && step in es ==>
            && Coherent(es, cache[b := es[step]]) && Learned(es, cache0, cache[b := es[step]])
            && Reached(es, cache[b := es[step]], components, i + 1, es[step], b)
            && Trail(cache0, cache[b := es[step]], segs, b))
      && (b !in cache && step !in es ==> Lookup(es, Root, DropLead(components)) == None)
  {
    var b, step := built + "/" + components[i], (cur, components[i]);
    var segs := DropLead(components[..i]);
    BuiltPathGrows(components, i);
    BuiltPathSegments(components, i + 1);
    LookupSnoc(es, Root, segs, components[i]);
    TrailStep(cache0, cache, segs, built, b, components[i], if step in es then es[step] else Root);
    if components[i] == "" {
      assert step !in es;
      assert b !in cache;
    } else if b !in cache && step in es {
      CacheTrue(es, cache0, cache, b, es[step]);
    }
    if step !in es {
      LookupPrefix(es, components, i + 1);
    }
  }

  /** Caching what a normal path really names keeps the cache true. */
  lemma CacheTrue(es: Edges, cache0: Cache, cache: Cache, p: string, id: Id)
    requires Coherent(es, cache) && Learned(es, cache0, cache)
    requires Normal(p) && Resolve(es, p) == Some(id)
    ensures Coherent(es, cache[p := id]) && Learned(es, cache0, cache[p := id])
    ensures Learned(es, cache, cache[p := id])
  {
    hide Resolve, Segments, Components;
  }

  lemma PrefixSegments(components: seq<string>, i: nat)
    requires i < |components|
    requires components[|components| - 1] != ""
    ensures DropLead(components[..i]) <= DropLead(components)
    ensures DropLead(components[..i]) != DropLead(components)
  {
    assert components == components[..i] + components[i..];
    if i > 0 {
      assert DropLead(components) == DropLead(components[..i]) + components[i..];
    }
  }

  /** The path built so far, with the next component put on. */
  lemma BuiltPathGrows(components: seq<string>, i: nat)
    requires i < |components|
    ensures PathOf(components[..i + 1]) == (if i == 0 then "" else PathOf(components[..i])) + "/" + components[i]
  {
    assert components[..i + 1] == components[..i] + [components[i]];
    if i > 0 {
      JoinSnoc(components[..i], components[i], "/");
    }
  }

  /** The path built from the first `i` components is normal, and leads through
      their segments, unless it ends in an empty component. */
  lemma BuiltPathSegments(components: seq<string>, i: nat)
    requires 0 < i <= |components|
    requires forall k :: 0 <= k < |components| ==> '/' !in components[k]
    ensures var b := PathOf(components[..i]);
      && (i == 1 && components[0] == "" ==> b == "/" && DropLead(components[..i]) == [])
      && (components[i - 1] != "" ==> Normal(b) && b != "/" && b != "" && Segments(b) == DropLead(components[..i]))
      && (i > 1 && components[i - 1] == "" ==> b != "" && !Normal(b))
      && (i > 1 || components[0] != "" ==> DropLead(components[..i]) == DropLead(components[..i - 1]) + [components[i - 1]])
  {
    hide Split;
    var cs := components[..i];
    var b := PathOf(cs);
    SegmentsGrow(components, i);
    SplitJoin(cs, '/');
    assert b[1..] == Join(cs, "/");
    if components[i - 1] != "" {
      JoinEnd(cs);
    } else if i > 1 {
      JoinSnoc(components[..i - 1], "", "/");
      assert cs == components[..i - 1] + [""];
      assert b[|b| - 1] == '/';
    }
  }

  lemma SegmentsGrow(components: seq<string>, i: nat)
    requires 0 < i <= |components|
    ensures i > 1 || components[0] != ""
      ==> DropLead(components[..i]) == DropLead(components[..i - 1]) + [components[i - 1]]
  {
    assert components[..i] == components[..i - 1] + [components[i - 1]];
  }

  /** A walk that fails on a prefix of the components fails on all of them. */
  lemma LookupPrefix(es: Edges, components: seq<string>, i: nat)
    requires 0 < i <= |components|
    requires Lookup(es, Root, DropLead(components[..i])) == None
    ensures Lookup(es, Root, DropLead(components)) == None
  {
    assert components == components[..i] + components[i..];
    assert DropLead(components) == DropLead(components[..i]) + components[i..];
    LookupAppend(es, Root, DropLead(components[..i]), components[i..]);
  }

  // ------------------------------------------------ changes and the cache

  /** The folder a path would be created in. */
  function ParentOf(es: Edges, p: string): Option<Id>
  {
    Resolve(es, NormPath(SplitParent(p).0))
  }

  lemma NameHasNoSlash(p: string)
    requires Normal(p)
    ensures '/' !in SplitParent(p).1
    ensures p != "/" <==> SplitParent(p).1 != ""
  {
    NormPathFixes(p);
    if p != "/" {
      SplitParentPieces(p);
    }
  }

  lemma IdKnown(es: Edges, next: nat, p: string, id: Id)
    requires WellFormed(es, next) && Normal(p) && Resolve(es, p) == Some(id)
    ensures id.Item? ==> id.n < next
  {
    LookupBound(es, next, Root, Segments(p));
  }

  lemma CreatedCoherent(es: Edges, cache: Cache, parent: Id, name: string, id: Id)
    requires Coherent(es, cache) && (parent, name) !in es
    ensures Coherent(Created(es, parent, name, id), cache)
  {
    hide Segments, Components;
    forall q | q in cache && q != ""
      ensures Resolve(Created(es, parent, name, id), q) == Some(cache[q])
    {
      CreatedKeeps(es, parent, name, id, Root, Segments(q));
    }
  }

  /** A path whose folder lacks the name names nothing. */
  lemma VacantUnresolved(es: Edges, next: nat, p: string)
    requires WellFormed(es, next) && Normal(p) && p != "/" && Vacant(es, p)
    ensures Resolve(es, p) == None
  {
    if Clean(Segments(p)) {
      var (parent, name) := SplitParent(p);
      SplitParentSegments(p);
      LookupSnoc(es, Root, Segments(parent), name);
    } else {
      UncleanNamesNothing(es, next, Root, Segments(p));
    }
  }

  /** Caching a double's id is wrong: lookups find the other entry, or none. */
  lemma DoubleMisleads(es: Edges, next: nat, cache: Cache, p: string)
    requires WellFormed(es, next) && Normal(p)
    ensures !Coherent(es, cache[p := Item(next)])
  {
    hide Segments, Components;
    if Resolve(es, p).Some? {
      IdKnown(es, next, p, Resolve(es, p).value);
    }
    assert p in cache[p := Item(next)];
  }

  /** An entry's own path is taken. */
  lemma ResolvedIsTaken(es: Edges, next: nat, p: string)
    requires WellFormed(es, next) && Normal(p)
    ensures Resolve(es, p).Some? && p != "/" ==> !Vacant(es, p)
  {
    hide Segments, Components, Lookup;
    if Resolve(es, p).Some? && p != "/" {
      EntryEdge(es, next, p, Resolve(es, p).value);
    }
  }

  /** What a creation does after some lookups it does from where they started. */
  lemma FromLookup(w: World, learned: Cache, w': World, p: string, put: bool, doubled: bool, ok: bool)
    requires Normal(p) && Learned(w.es, w.cache, learned) && (put ==> ok)
    requires doubled <==> w'.next != w.next && !Vacant(w.es, p)
    requires ok ==> w'.next != w.next
    requires w'.next != w.next ==> p != "/"
    requires ok && !doubled ==> MakeStep(State(w.es, w.next, learned), w', p, put)
    requires !ok && !doubled ==> w' == State(w.es, w.next, learned) || MakeStep(State(w.es, w.next, learned), w', p, false)
    requires doubled ==> DoubleStep(State(w.es, w.next, learned), w', p, put)
    ensures Takes(w, Creating(p, w'.next != w.next, doubled, put), w')
    ensures ok ==> if doubled then DoubleStep(w, w', p, put) else MakeStep(w, w', p, put)
  {
    hide MakeStep, DoubleStep, Vacant;
    if doubled {
      DoubleFrom(w, learned, w', p, put);
    } else if ok {
      MakeLater(w, learned, w', p, put);
    } else if w' != State(w.es, w.next, learned) {
      MakeLater(w, learned, w', p, false);
      MakesOne(w, w', p, false);
    }
  }

  lemma MakesOne(w: World, w': World, p: string, put: bool)
    requires Normal(p) && MakeStep(w, w', p, put)
    ensures w'.next == w.next + 1
  {
  }

  /** After a creation the path leads to the new entry exactly when that is no
      double and the path has no empty segment. */
  lemma LandsThere(w: World, w': World, p: string, put: bool, doubled: bool)
    requires WellFormed(w.es, w.next) && Normal(p) && p != "/" && (doubled <==> !Vacant(w.es, p))
    requires if doubled then DoubleStep(w, w', p, put) else MakeStep(w, w', p, put)
    ensures Resolve(w'.es, p) == Some(Item(w.next)) <==> !doubled && Clean(Segments(p))
  {
    hide Components, SplitParent;
    if doubled {
      if Resolve(w.es, p).Some? {
        IdKnown(w.es, w.next, p, Resolve(w.es, p).value);
      }
    } else {
      var (dir, name) := SplitParent(p);
      var parent := ParentOf(w.es, p).value;
      NameHasNoSlash(p);
      IdKnown(w.es, w.next, NormPath(dir), parent);
      CreatedWellFormed(w.es, w.next, parent, name);
      if Clean(Segments(p)) {
        SplitParentSegments(p);
        CreatedKeeps(w.es, parent, name, Item(w.next), Root, Segments(dir));
        LookupSnoc(w'.es, Root, Segments(dir), name);
      } else {
        UncleanNamesNothing(w'.es, w'.next, Root, Segments(p));
      }
    }
  }

  /** Caching a created entry under the path it was asked for is right exactly
      when the path has no empty segment. */
  lemma PutCreated(es: Edges, es': Edges, next': nat, cache: Cache, p: string, parent: Id, name: string, id: Id)
    requires Normal(p) && p != "/" && name == SplitParent(p).1
    requires ParentOf(es, p) == Some(parent) && (parent, name) !in es
    requires es' == Created(es, parent, name, id) && WellFormed(es', next') && Coherent(es', cache)
    ensures Coherent(es', cache[p := id]) <==> Clean(Segments(p))
  {
    if Clean(Segments(p)) {
      SplitParentSegments(p);
      var dir := SplitParent(p).0;
      CreatedKeeps(es, parent, name, id, Root, Segments(dir));
      LookupSnoc(es', Root, Segments(dir), name);
      assert Resolve(es', p) == Some(id);
      CacheTrue(es', cache, cache, p, id);
    } else {
      UncleanNamesNothing(es', next', Root, Segments(p));
      assert p in cache[p := id] && Resolve(es', p) == None;
    }
  }

  /** Resolving a path first does not change whether it is the only cached one
      at or below its entry. */
  lemma AlongKeepsOnly(cache0: Cache, cache: Cache, p: string)
    requires Normal(p) && Along(cache0, cache, p)
    requires forall q :: q in cache0 ==> q in cache
    ensures OnlyCached(cache, p) <==> OnlyCached(cache0, p)
    ensures OnlyCached(cache - {p}, p) <==> OnlyCached(cache, p)
  {
    hide Segments, Components;
  }

  /** Deleting the entry at `p` and dropping `p` leaves the cache true exactly
      when no other cached path ran to or through the entry. */
  lemma RemoveExact(es: Edges, next: nat, cache: Cache, p: string, id: Id)
    requires WellFormed(es, next) && Coherent(es, cache)
    requires Normal(p) && Resolve(es, p) == Some(id) && id != Root
    ensures Coherent(Deleted(es, id), cache - {p}) <==> OnlyCached(cache, p)
    ensures p in cache ==> !Coherent(Deleted(es, id), cache)
  {
    hide Components;
    var es', d := Deleted(es, id), Segments(p);
    forall q | q in cache && q != ""
      ensures Resolve(es', q) == if d <= Segments(q) then None else Some(cache[q])
    {
      DeletedExact(es, next, id, d, Segments(q));
    }
    if p in cache {
      assert Resolve(es', p) == None;
    }
    if !OnlyCached(cache, p) {
      var q :| q in cache && q != p && Normal(q) && d <= Segments(q);
      assert q in cache - {p} && Resolve(es', q) == None;
    }
  }

  /** What a reliable remote grants: an entry other than the root, a folder to
      put it in, and a name. */
  ghost predicate CanMove(es: Edges, op: string, np: string)
    requires Normal(op) && Normal(np)
  {
    && Resolve(es, op).Some? && Resolve(es, op) != Some(Root)
    && ParentOf(es, np).Some? && np != "/"
  }

  /** The cache stays true after a finished rename: nothing else cached ran
      through the old path, the new path has no empty segment, and it does not
      lie below the old one. */
  ghost predicate RenameKeeps(cache: Cache, op: string, np: string)
    requires Normal(op) && Normal(np)
  {
    OnlyCached(cache, op) && Clean(Segments(np)) && !(Segments(op) <= Segments(np))
  }

  /** The entry a path leads to hangs by the path's last segment in the folder
      the rest leads to, and nowhere else. */
  lemma EntryEdge(es: Edges, next: nat, p: string, id: Id)
    requires WellFormed(es, next) && Normal(p) && Resolve(es, p) == Some(id)
    ensures ParentOf(es, p).Some?
    ensures id != Root ==> (ParentOf(es, p).value, SplitParent(p).1) in es && es[(ParentOf(es, p).value, SplitParent(p).1)] == id
    ensures id != Root ==> forall e :: e in es && es[e] == id ==> e == (ParentOf(es, p).value, SplitParent(p).1)
    ensures id == Root <==> p == "/"
  {
    if p != "/" {
      if !Clean(Segments(p)) {
        UncleanNamesNothing(es, next, Root, Segments(p));
        assert false;
      }
      SplitParentSegments(p);
      LookupSnoc(es, Root, Segments(SplitParent(p).0), SplitParent(p).1);
    }
  }

  /** The exact effect of a finished rename on the cache's truth. */
  lemma RenameExact(es: Edges, next: nat, cache: Cache, op: string, np: string, id: Id, parent: Id)
    requires WellFormed(es, next) && Coherent(es, cache)
    requires Normal(op) && Resolve(es, op) == Some(id) && id != Root
    requires Normal(np) && np != "/" && ParentOf(es, np) == Some(parent) && (parent, SplitParent(np).1) !in es
    ensures var es' := Relinked(es, id, parent, SplitParent(np).1);
      Coherent(es', (cache - {op})[np := id]) <==> RenameKeeps(cache, op, np)
    ensures op in cache ==> !Coherent(Relinked(es, id, parent, SplitParent(np).1), cache)
  {
    hide Components, SplitParent, Segments, Lookup;
    var name := SplitParent(np).1;
    var es' := Relinked(es, id, parent, name);
    VacantUnresolved(es, next, np);
    NameHasNoSlash(np);
    IdKnown(es, next, op, id);
    IdKnown(es, next, NormPath(SplitParent(np).0), parent);
    RelinkedWellFormed(es, next, id, parent, name);
    CacheAfterMove(es, next, cache, op, id, parent, name);
    NewPathResolves(es, next, op, np, id, parent);
    EntryEdge(es, next, op, id);
    hide Relinked, WellFormed;
    CacheUpdates(es, es', cache, op, np, id);
  }

  /** What the two updates make of a cache whose paths through the old place name
      nothing any more. */
  lemma CacheUpdates(es: Edges, es': Edges, cache: Cache, op: string, np: string, id: Id)
    requires Coherent(es, cache) && Normal(op) && Normal(np) && op != "/" && np != "/" && Resolve(es, np) == None
    requires forall q :: q in cache && q != "" ==>
      Resolve(es', q) == if Segments(op) <= Segments(q) then None else Some(cache[q])
    requires Resolve(es', np) == Some(id) <==> Clean(Segments(np)) && !(Segments(op) <= Segments(np))
    ensures Coherent(es', (cache - {op})[np := id]) <==> RenameKeeps(cache, op, np)
    ensures op in cache ==> !Coherent(es', cache)
  {
    hide Components, SplitParent, Segments, Lookup, Resolve, Clean;
    var cache' := (cache - {op})[np := id];
    assert np !in cache && np in cache';
    assert Segments(op) <= Segments(op);
    if !OnlyCached(cache, op) {
      var q :| q in cache && q != op && Normal(q) && Segments(op) <= Segments(q);
      assert q in cache' && q != np && Resolve(es', q) == None;
    }
  }

  /** After a move, the cached paths through the old place name nothing; the
      others are still right. */
  lemma CacheAfterMove(es: Edges, next: nat, cache: Cache, op: string, id: Id, parent: Id, name: string)
    requires WellFormed(es, next) && Coherent(es, cache) && (parent, name) !in es
    requires Normal(op) && Resolve(es, op) == Some(id) && id != Root
    ensures forall q :: q in cache && q != "" ==>
      Resolve(Relinked(es, id, parent, name), q) == if Segments(op) <= Segments(q) then None else Some(cache[q])
  {
    hide Components, SplitParent, Segments;
    forall q | q in cache && q != ""
      ensures Resolve(Relinked(es, id, parent, name), q) == if Segments(op) <= Segments(q) then None else Some(cache[q])
    {
      RelinkedExact(es, next, id, Segments(op), parent, name, Segments(q));
    }
  }

  /** What the server did with the PATCH is the move the paths describe. */
  lemma PatchMoved(es: Edges, next: nat, ds: seq<Double>, es': Edges, ds': seq<Double>, op: string, np: string, id: Id,
                   move: Option<Move>)
    requires WellFormed(es, next) && Normal(op) && Normal(np) && IsMove(es, op, np, id, move) && id != Root
    requires SplitParent(np).1 != "" && Patched(es, ds, es', ds', id, SplitParent(np).1, move)
    ensures CanMove(es, op, np) && Rehung(es, ds, es', ds', id, ParentOf(es, np).value, SplitParent(np).1)
  {
    hide Components, Segments, Lookup, Rehung;
    EntryEdge(es, next, op, id);
    NameHasNoSlash(np);
  }

  lemma LookedIs(w: World, learned: Cache)
    requires Learned(w.es, w.cache, learned)
    ensures Takes(w, Looked, State(w.es, w.next, learned))
  {
  }

  /** What a removal came to. */
  lemma RemovedSo(w: World, learned: Cache, w': World, p: string, ok: bool, applied: bool)
    requires WellFormed(w.es, w.next) && Normal(p) && Resolve(w.es, p).Some? && (ok ==> applied)
    requires Learned(w.es, w.cache, learned) && Coherent(w.es, learned) && Along(w.cache, learned, p) && p in learned
    requires applied ==> Resolve(w.es, p) != Some(Root) && w'.es == Deleted(w.es, Resolve(w.es, p).value)
    requires w'.next == w.next && (!applied ==> w'.es == w.es)
    requires w'.cache == if ok then learned - {p} else learned
    ensures Takes(w, Removing(p, ok, applied), w')
    ensures Coherent(w'.es, w'.cache) <==> (applied ==> ok && OnlyCached(w.cache, p))
  {
    hide Segments, Components, Lookup, OnlyCached, Resolve, WellFormed, Coherent;
    if applied {
      AlongKeepsOnly(w.cache, learned, p);
      RemoveExact(w.es, w.next, learned, p, Resolve(w.es, p).value);
    }
  }

  /** What a rename came to, in each of its cases. */
  lemma RenamedSo(w: World, learned: Cache, w': World, op: string, np: string, ds: seq<Double>, ds': seq<Double>, ok: bool,
                  applied: bool)
    requires WellFormed(w.es, w.next) && Coherent(w.es, w.cache) && Normal(op) && Normal(np)
    requires Learned(w.es, w.cache, learned) && Coherent(w.es, learned) && op in learned && (ok ==> applied)
    requires CanMove(w.es, op, np) ==> (RenameKeeps(learned, op, np) <==> RenameKeeps(w.cache, op, np))
    requires w'.next == w.next && (!applied ==> w'.es == w.es)
    requires applied ==>
      CanMove(w.es, op, np)
      && Rehung(w.es, ds, w'.es, ds', Resolve(w.es, op).value, ParentOf(w.es, np).value, SplitParent(np).1)
    requires w'.cache == if ok then (learned - {op})[np := Resolve(w.es, op).value] else learned
    ensures Takes(w, Renaming(w.es, op, np, ok, applied), w')
    ensures Coherent(w'.es, w'.cache) <==> (applied ==> RenameTrue(w, op, np, ok))
  {
    hide Segments, Components, Lookup, RenameKeeps, OnlyCached, Resolve, WellFormed, SplitParent, Coherent, Learned;
    if !applied {
      LookedIs(w, learned);
    } else {
      var id, parent := Resolve(w.es, op).value, ParentOf(w.es, np).value;
      IdKnown(w.es, w.next, op, id);
      IdKnown(w.es, w.next, NormPath(SplitParent(np).0), parent);
      NameHasNoSlash(np);
      RehungWellFormed(w.es, w.next, id, parent, SplitParent(np).1);
      if OntoItself(w.es, op, np) {
        TouchExact(w.es, w.next, learned, op, np, id);
      } else if OntoAnother(w.es, op, np) {
        CoverExact(w.es, w.next, learned, op, np, id);
      } else {
        assert Vacant(w.es, np);
        RenameExact(w.es, w.next, learned, op, np, id, parent);
        MoveFrom(w, learned, op, np);
      }
    }
  }

  /** Renaming an entry onto itself: dropping the old path and caching the new one
      is right exactly when the new one has no empty segment. */
  lemma TouchExact(es: Edges, next: nat, cache: Cache, op: string, np: string, id: Id)
    requires WellFormed(es, next) && Coherent(es, cache) && Normal(op) && Normal(np)
    requires OntoItself(es, op, np) && Resolve(es, op) == Some(id)
    ensures Coherent(es, (cache - {op})[np := id]) <==> Clean(Segments(np))
  {
    PlaceResolves(es, next, np, id);
    EntryEdge(es, next, op, id);
    var kept := cache - {op};
    if Clean(Segments(np)) {
      hide Coherent, Learned, Resolve;
      DropKeeps(es, cache, op);
      CacheTrue(es, kept, kept, np, id);
    } else {
      hide SplitParent, Segments, Resolve;
      assert np in kept[np := id];
    }
  }

  lemma DropKeeps(es: Edges, cache: Cache, p: string)
    requires Coherent(es, cache) && p != "/"
    ensures Coherent(es, cache - {p}) && Learned(es, cache - {p}, cache - {p})
  {
    hide Resolve;
  }

  /** A spelling of an entry's own place leads to it exactly when it has no empty
      segment. */
  lemma PlaceResolves(es: Edges, next: nat, np: string, id: Id)
    requires WellFormed(es, next) && Normal(np) && np != "/" && ParentOf(es, np).Some?
    requires (ParentOf(es, np).value, SplitParent(np).1) in es && es[(ParentOf(es, np).value, SplitParent(np).1)] == id
    ensures Resolve(es, np) == Some(id) <==> Clean(Segments(np))
  {
    hide Components;
    if Clean(Segments(np)) {
      var (dir, name) := SplitParent(np);
      SplitParentSegments(np);
      LookupSnoc(es, Root, Segments(dir), name);
    } else {
      UncleanNamesNothing(es, next, Root, Segments(np));
    }
  }

  /** Renaming an entry onto another one: no path leads to it any more, so the
      cache is wrong whether or not the reply came. */
  lemma CoverExact(es: Edges, next: nat, cache: Cache, op: string, np: string, id: Id)
    requires WellFormed(es, next) && Coherent(es, cache) && Normal(op) && Normal(np)
    requires CanMove(es, op, np) && Resolve(es, op) == Some(id) && op in cache
    ensures !Coherent(Deleted(es, id), cache) && !Coherent(Deleted(es, id), (cache - {op})[np := id])
  {
    hide Components, SplitParent, Segments, Lookup;
    DeletedExact(es, next, id, Segments(op), Segments(op));
    DeletedExact(es, next, id, Segments(op), Segments(np));
    assert Segments(op) <= Segments(op);
    assert Resolve(Deleted(es, id), op) == None;
    if Resolve(Deleted(es, id), np) == Some(id) {
      OnePath(es, next, Segments(op), Segments(np));
      assert false;
    }
    assert np in (cache - {op})[np := id];
  }

  /** Resolving the paths of a rename adds nothing that matters to it. */
  lemma RenameAlong(es: Edges, next: nat, cache0: Cache, cache1: Cache, cache2: Cache, cache3: Cache, op: string, np: string)
    requires WellFormed(es, next) && Normal(op) && Normal(np) && Resolve(es, op).Some?
    requires forall q :: q in cache0 ==> q in cache1
    requires forall q :: q in cache1 ==> q in cache2
    requires forall q :: q in cache2 ==> q in cache3
    requires Along(cache0, cache1, op)
    requires cache1 == cache2 || Along(cache1, cache2, NormPath(SplitParent(op).0))
    requires cache2 == cache3 || Along(cache2, cache3, NormPath(SplitParent(np).0))
    ensures op != "/" && np != "/" ==> (RenameKeeps(cache3, op, np) <==> RenameKeeps(cache0, op, np))
  {
    hide Components, SplitParent;
    if op != "/" && np != "/" && Clean(Segments(np)) && !(Segments(op) <= Segments(np)) {
      if !Clean(Segments(op)) {
        UncleanNamesNothing(es, next, Root, Segments(op));
        assert false;
      }
      SplitParentSegments(op);
      SplitParentSegments(np);
      var dir := SplitParent(np).0;
      forall q | q in cache3 && q !in cache0 && q != op && Normal(q)
        ensures !(Segments(op) <= Segments(q))
      {
        if q !in cache2 {
          assert Segments(q) <= Segments(dir) <= Segments(np);
        }
      }
    }
  }

  /** The new path leads to the moved entry exactly when it has no empty segment
      and does not lie below the old one. */
  lemma NewPathResolves(es: Edges, next: nat, op: string, np: string, id: Id, parent: Id)
    requires WellFormed(es, next) && Normal(op) && Resolve(es, op) == Some(id) && id != Root
    requires Normal(np) && np != "/" && ParentOf(es, np) == Some(parent) && (parent, SplitParent(np).1) !in es
    requires WellFormed(Relinked(es, id, parent, SplitParent(np).1), next)
    ensures Resolve(Relinked(es, id, parent, SplitParent(np).1), np) == Some(id)
      <==> Clean(Segments(np)) && !(Segments(op) <= Segments(np))
  {
    hide Components, SplitParent;
    var (dir, name) := SplitParent(np);
    var es', d := Relinked(es, id, parent, name), Segments(op);
    RelinkedExact(es, next, id, d, parent, name, Segments(np));
    if !Clean(Segments(np)) {
      UncleanNamesNothing(es', next, Root, Segments(np));
    } else if !(d <= Segments(np)) {
      SplitParentSegments(np);
      assert Segments(np)[..|Segments(np)| - 1] == Segments(dir);
      RelinkedExact(es, next, id, d, parent, name, Segments(dir));
      LookupSnoc(es', Root, Segments(dir), name);
    }
  }
}

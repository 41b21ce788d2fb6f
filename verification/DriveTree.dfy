/** Google Drive as the driver sees it: entries known by opaque ids, each under
    one parent with a name of its own, and paths resolved one name at a time. */
module DriveTree {
  import opened Options
  import opened Paths

  datatype Id = Root | Item(n: nat)

  /** The entry with a given parent and name. */
  type Edges = map<(Id, string), Id>

  /** No two entries share an id, ids stay below `next`, names are names. */
  ghost predicate WellFormed(es: Edges, next: nat) {
    && (forall e <- es :: IsName(e.1) && es[e].Item? && es[e].n < next && (e.0.Item? ==> e.0.n < next))
    && (forall e, f :: e in es && f in es && es[e] == es[f] ==> e == f)
  }

  /** The walk the cache stands in for: one lookup per segment. */
  function Lookup(es: Edges, from: Id, segs: seq<string>): Option<Id>
    decreases |segs|
  {
    if segs == [] then Some(from)
    else if (from, segs[0]) in es then Lookup(es, es[(from, segs[0])], segs[1..])
    else None
  }

  /** What a path names on the remote. */
  function Resolve(es: Edges, p: string): Option<Id>
    requires Normal(p)
  {
    Lookup(es, Root, Segments(p))
  }

  /** The tree without the entry `id`; what was below it no longer has a path. */
  function Deleted(es: Edges, id: Id): Edges {
    map e <- es | es[e] != id :: es[e]
  }

  function Created(es: Edges, parent: Id, name: string, id: Id): Edges {
    es[(parent, name) := id]
  }

  /** The entry `id` renamed to `name` under `parent`. */
  function Relinked(es: Edges, id: Id, parent: Id, name: string): Edges {
    Created(Deleted(es, id), parent, name, id)
  }

  // ---------------------------------------------------------------- laws

  lemma {:induction false} LookupAppend(es: Edges, from: Id, a: seq<string>, b: seq<string>)
    ensures Lookup(es, from, a + b) ==
      match Lookup(es, from, a) case Some(mid) => Lookup(es, mid, b) case None => None
    decreases |a|
  {
    if a == [] {
      assert a + b == b;
    } else {
      assert (a + b)[1..] == a[1..] + b;
      if (from, a[0]) in es {
        LookupAppend(es, es[(from, a[0])], a[1..], b);
      }
    }
  }

  lemma LookupSnoc(es: Edges, from: Id, a: seq<string>, n: string)
    ensures Lookup(es, from, a + [n]) ==
      match Lookup(es, from, a)
      case Some(mid) => (if (mid, n) in es then Some(es[(mid, n)]) else None)
      case None => None
  {
    LookupAppend(es, from, a, [n]);
    if Lookup(es, from, a).Some? {
      var mid := Lookup(es, from, a).value;
      assert [n][1..] == [];
    }
  }

  /** A path with an empty segment names nothing. */
  lemma {:induction false} UncleanNamesNothing(es: Edges, next: nat, from: Id, segs: seq<string>)
    requires WellFormed(es, next) && !Clean(segs)
    ensures Lookup(es, from, segs) == None
    decreases |segs|
  {
    if (from, segs[0]) in es {
      assert IsName((from, segs[0]).1);
      var k :| 0 <= k < |segs| && segs[k] == "";
      assert segs[1..][k - 1] == "";
      UncleanNamesNothing(es, next, es[(from, segs[0])], segs[1..]);
    }
  }

  /** Each entry has one path. */
  lemma {:induction false} OnePath(es: Edges, next: nat, a: seq<string>, b: seq<string>)
    requires WellFormed(es, next)
    requires Lookup(es, Root, a).Some? && Lookup(es, Root, a) == Lookup(es, Root, b)
    ensures a == b
    decreases |a|
  {
    if a != [] {
      var a', n := a[..|a| - 1], a[|a| - 1];
      assert a == a' + [n];
      LookupSnoc(es, Root, a', n);
    }
    if b != [] {
      var b', m := b[..|b| - 1], b[|b| - 1];
      assert b == b' + [m];
      LookupSnoc(es, Root, b', m);
    }
    if a != [] && b != [] {
      OnePath(es, next, a[..|a| - 1], b[..|b| - 1]);
    }
  }

  /** Adding an entry where there was none changes no path that named something. */
  lemma {:induction false} CreatedKeeps(es: Edges, parent: Id, name: string, id: Id, from: Id, segs: seq<string>)
    requires (parent, name) !in es
    ensures Lookup(es, from, segs).Some? ==> Lookup(Created(es, parent, name, id), from, segs) == Lookup(es, from, segs)
    decreases |segs|
  {
    if segs != [] && (from, segs[0]) in es {
      CreatedKeeps(es, parent, name, id, es[(from, segs[0])], segs[1..]);
    }
  }

  /** Deleting the entry at path `d` removes `d` and every path through it, and
      nothing else. */
  lemma {:induction false} DeletedExact(es: Edges, next: nat, id: Id, d: seq<string>, segs: seq<string>)
    requires WellFormed(es, next) && id != Root && Lookup(es, Root, d) == Some(id)
    ensures Lookup(Deleted(es, id), Root, segs) == if d <= segs then None else Lookup(es, Root, segs)
    decreases |segs|
  {
    if segs == [] {
      assert d != [];
    } else {
      var init, n := segs[..|segs| - 1], segs[|segs| - 1];
      assert segs == init + [n];
      DeletedExact(es, next, id, d, init);
      LookupSnoc(es, Root, init, n);
      LookupSnoc(Deleted(es, id), Root, init, n);
      if d <= segs {
        assert d <= init || d == segs;
      } else {
        assert !(d <= init);
        if Lookup(es, Root, segs) == Some(id) {
          OnePath(es, next, d, segs);
          assert false;
        }
      }
    }
  }

  /** After a move, the paths through the old place name nothing and all others
      that named something still do. */
  lemma {:induction false} RelinkedExact(es: Edges, next: nat, id: Id, d: seq<string>, parent: Id, name: string, segs: seq<string>)
    requires WellFormed(es, next) && id != Root && Lookup(es, Root, d) == Some(id)
    requires (parent, name) !in es
    ensures d <= segs ==> Lookup(Relinked(es, id, parent, name), Root, segs) == None
    ensures !(d <= segs) && Lookup(es, Root, segs).Some?
      ==> Lookup(Relinked(es, id, parent, name), Root, segs) == Lookup(es, Root, segs)
  {
    DeletedExact(es, next, id, d, segs);
    CreatedKeeps(Deleted(es, id), parent, name, id, Root, segs);
    if d <= segs {
      assert d != [];
      var init, n := d[..|d| - 1], d[|d| - 1];
      assert d == init + [n];
      LookupSnoc(es, Root, init, n);
      var at := Lookup(es, Root, init).value;
      var moved := Relinked(es, id, parent, name);
      DeletedExact(es, next, id, d, init);
      CreatedKeeps(Deleted(es, id), parent, name, id, Root, init);
      assert (at, n) !in moved;
      LookupSnoc(moved, Root, init, n);
      assert segs == d + segs[|d|..];
      LookupAppend(moved, Root, d, segs[|d|..]);
    }
  }

  lemma CreatedWellFormed(es: Edges, next: nat, parent: Id, name: string)
    requires WellFormed(es, next) && IsName(name) && (parent, name) !in es
    requires parent.Item? ==> parent.n < next
    ensures WellFormed(Created(es, parent, name, Item(next)), next + 1)
  {
  }

  lemma DeletedWellFormed(es: Edges, next: nat, id: Id)
    requires WellFormed(es, next)
    ensures WellFormed(Deleted(es, id), next)
  {
  }

  lemma RelinkedWellFormed(es: Edges, next: nat, id: Id, parent: Id, name: string)
    requires WellFormed(es, next) && IsName(name) && (parent, name) !in es
    requires id.Item? && id.n < next && (parent.Item? ==> parent.n < next)
    ensures WellFormed(Deleted(es, id), next)
    ensures WellFormed(Relinked(es, id, parent, name), next)
  {
  }

  /** Ids reached by paths have been handed out. */
  lemma {:induction false} LookupBound(es: Edges, next: nat, from: Id, segs: seq<string>)
    requires WellFormed(es, next) && Lookup(es, from, segs).Some?
    ensures Lookup(es, from, segs).value == from || (Lookup(es, from, segs).value.Item? && Lookup(es, from, segs).value.n < next)
    decreases |segs|
  {
    if segs != [] {
      LookupBound(es, next, es[(from, segs[0])], segs[1..]);
    }
  }
}

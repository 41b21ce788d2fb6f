/** fsutil.Glob: Walk with a callback that collects matching paths. Shell
    pattern matching itself is any function that answers yes, no, or "bad
    pattern" (None). */
module Glob {
  import opened GoStrings
  import opened Options
  import opened Paths
  import opened Walk

  type Matcher = (string, string) -> Option<bool>

  const BAD_PATTERN := Error(1, false)

  /** How Glob reads its pattern argument. */
  datatype Query = Query(root: string, recursive: bool, pattern: string, matches: Matcher)

  function QueryOf(root: string, pattern: string, matches: Matcher): Query {
    Query(root, "**/" <= pattern, TrimPrefix(pattern, "**/"), matches)
  }

  /** The entry gets as far as the pattern match. */
  predicate Considered(q: Query, v: Visit) {
    v.err.None? && (q.recursive || ParentPath(v.path) == NormaliseRoot(q.root))
  }

  predicate Bad(q: Query, v: Visit) {
    Considered(q, v) && q.matches(q.pattern, v.info.name).None?
  }

  predicate Matched(q: Query, v: Visit) {
    Considered(q, v) && q.matches(q.pattern, v.info.name) == Some(true) && v.info.name != ""
  }

  function Collect(q: Query): WalkFunc<seq<string>> {
    (out: seq<string>, v: Visit) =>
      if v.err.Some? then (out, None)
      else if !q.recursive && ParentPath(v.path) != NormaliseRoot(q.root) then (out, None)
      else match q.matches(q.pattern, v.info.name)
        case None => (out, Some(BAD_PATTERN))
        case Some(ok) => (if ok && v.info.name != "" then out + [v.path] else out, None)
  }

  method Run(root: string, pattern: string, matches: Matcher, stat: Entry, statErr: Option<Error>)
    returns (out: seq<string>, err: Option<Error>)
    ensures statErr.Some? ==> out == [] && err == None
    ensures statErr.None? ==>
      var q, script := QueryOf(root, pattern, matches), Script(stat.info, stat.listing);
      var bad := FirstBad(q, script);
      out == MatchedPaths(q, script[..bad]) && err == (if bad < |script| then Some(BAD_PATTERN) else None)
    ensures statErr.None? ==>
      var script, deep := Script(stat.info, stat.listing), "**/" <= pattern;
      (err.Some? <==> (exists i :: (0 <= i < |script| && script[i].visit.err.None?
        && (deep || ParentPath(script[i].visit.path) == NormaliseRoot(root))
        && matches(if deep then pattern[3..] else pattern, script[i].visit.info.name).None?)))
  {
    var recursive := "**/" <= pattern;
    var matchPat := pattern;
    if recursive {
      matchPat := TrimPrefix(pattern, "**/");
    }
    var q := Query(root, recursive, matchPat, matches);
    out, err := WalkFrom(root, stat, statErr, Collect(q), []);
    if statErr.None? {
      ghost var script := Script(stat.info, stat.listing);
      ScriptSized(stat.info, stat.listing);
      ScanCollects(q, script, []);
    }
  }

  /** The paths of the matching entries, in order. */
  function MatchedPaths(q: Query, items: seq<Item>): seq<string> {
    if items == [] then []
    else (if Matched(q, items[0].visit) then [items[0].visit.path] else []) + MatchedPaths(q, items[1..])
  }

  /** The first entry the pattern turns out to be malformed on. */
  function FirstBad(q: Query, items: seq<Item>): (k: nat)
    ensures k <= |items|
    ensures forall i :: 0 <= i < k ==> !Bad(q, items[i].visit)
    ensures k < |items| ==> Bad(q, items[k].visit)
  {
    if items == [] || Bad(q, items[0].visit) then 0 else 1 + FirstBad(q, items[1..])
  }

  /** Collecting along the whole script filters it, up to a bad pattern. */
  lemma {:induction false} ScanCollects(q: Query, script: seq<Item>, out: seq<string>)
    requires Sized(script)
    ensures Scan(script, 0, Collect(q), out) == Collected(q, script, out)
    decreases |script|
  {
    assert out + [] == out;
    if script != [] && !Bad(q, script[0].visit) {
      var tail, head := script[1..], script[0].visit;
      var out1 := Collect(q)(out, head).0;
      assert script == [script[0]] + tail;
      ScanShift([script[0]], tail, 0, Collect(q), out1);
      assert Scan(script, 0, Collect(q), out) == Scan(tail, 0, Collect(q), out1);
      assert forall i :: 0 <= i < |tail| ==> tail[i] == script[i + 1];
      ScanCollects(q, tail, out1);
      CollectedStep(q, script, out);
    }
  }

  function Collected(q: Query, script: seq<Item>, out: seq<string>): (seq<string>, Option<Error>) {
    var bad := FirstBad(q, script);
    (out + MatchedPaths(q, script[..bad]), if bad < |script| then Some(BAD_PATTERN) else None)
  }

  lemma CollectedStep(q: Query, script: seq<Item>, out: seq<string>)
    requires script != [] && !Bad(q, script[0].visit)
    ensures Collected(q, script, out) == Collected(q, script[1..], Collect(q)(out, script[0].visit).0)
  {
    var tail, bad := script[1..], FirstBad(q, script);
    var v := script[0].visit;
    var found := if Matched(q, v) then [v.path] else [];
    CollectOne(q, out, v);
    assert bad == 1 + FirstBad(q, tail);
    hide Matched, Considered, Bad, Collect, FirstBad;
    assert script[..bad][1..] == tail[..bad - 1];
    assert script[..bad][0] == script[0];
    assert out + (found + MatchedPaths(q, tail[..bad - 1])) == (out + found) + MatchedPaths(q, tail[..bad - 1]);
  }

  lemma CollectOne(q: Query, out: seq<string>, v: Visit)
    requires !Bad(q, v)
    ensures Collect(q)(out, v).0 == out + if Matched(q, v) then [v.path] else []
  {
    assert out + [] == out;
  }

  // ------------------------------------------------ the non-recursive form

  /** Every listed entry is named by one segment and placed under its directory. */
  predicate WellPlaced(dir: string, kids: seq<Entry>)
    decreases kids
  {
    forall e <- kids ::
      && IsName(e.info.name)
      && (e.info.path == "" || e.info.path == JoinPath(dir, e.info.name))
      && (e.info.isDir && e.listing.Children? ==>
            assert e.listing < e; WellPlaced(JoinPath(dir, e.info.name), e.listing.kids))
  }

  /** The direct children whose name matches, in listing order. */
  function DirectMatches(q: Query, dir: string, kids: seq<Entry>): seq<string> {
    if kids == [] then []
    else
      var n := kids[0].info.name;
      (if q.matches(q.pattern, n) == Some(true) then [JoinPath(dir, n)] else []) + DirectMatches(q, dir, kids[1..])
  }

  lemma {:induction false} PathsAppend(q: Query, a: seq<Item>, b: seq<Item>)
    ensures MatchedPaths(q, a + b) == MatchedPaths(q, a) + MatchedPaths(q, b)
    decreases |a|
  {
    if a == [] {
      assert a + b == b;
    } else {
      assert (a + b)[1..] == a[1..] + b;
      PathsAppend(q, a[1..], b);
    }
  }

  /** Below a directory whose path is longer than the root's, nothing is
      considered. */
  lemma {:induction false} DeepIsSilent(q: Query, dir: string, kids: seq<Entry>)
    requires !q.recursive && WellPlaced(dir, kids)
    requires |NormaliseRoot(dir)| > |NormaliseRoot(q.root)|
    ensures MatchedPaths(q, ScriptKids(dir, kids)) == []
    decreases kids
  {
    if kids != [] {
      var e := Placed(dir, kids[0]);
      assert kids[0] in kids;
      ParentOfJoin(dir, e.info.name);
      SubtreeSilent(q, dir, kids[0]);
      DeepIsSilent(q, dir, kids[1..]);
      PathsAppend(q, Script(e.info, e.listing), ScriptKids(dir, kids[1..]));
    }
  }

  /** Of the subtree of one listed entry only the entry itself can match. */
  lemma {:induction false} SubtreeSilent(q: Query, dir: string, kid: Entry)
    requires !q.recursive && WellPlaced(dir, [kid])
    requires |NormaliseRoot(dir)| >= |NormaliseRoot(q.root)|
    ensures var e := Placed(dir, kid);
      MatchedPaths(q, Script(e.info, e.listing)) == (if Matched(q, Visit(e.info.path, e.info, None)) then [e.info.path] else [])
    decreases kid
  {
    var e := Placed(dir, kid);
    assert kid in [kid];
    JoinGrows(dir, e.info.name);
    var script := Script(e.info, e.listing);
    if e.info.isDir && e.listing.Children? {
      DeepIsSilent(q, e.info.path, e.listing.kids);
      assert script[1..] == ScriptKids(e.info.path, e.listing.kids);
    } else if e.info.isDir {
      assert script[1..][1..] == [] && script[1].visit.err.Some?;
      assert MatchedPaths(q, script[1..]) == [];
    }
  }

  lemma {:induction false} KidsMatch(q: Query, dir: string, kids: seq<Entry>)
    requires !q.recursive && WellPlaced(dir, kids)
    requires NormaliseRoot(dir) == NormaliseRoot(q.root)
    ensures MatchedPaths(q, ScriptKids(dir, kids)) == DirectMatches(q, dir, kids)
    decreases |kids|
  {
    if kids != [] {
      var e := Placed(dir, kids[0]);
      assert kids[0] in kids;
      assert e.info.path == JoinPath(dir, e.info.name);
      ParentOfJoin(dir, e.info.name);
      SubtreeSilent(q, dir, kids[0]);
      KidsMatch(q, dir, kids[1..]);
      PathsAppend(q, Script(e.info, e.listing), ScriptKids(dir, kids[1..]));
    }
  }

  /** Without the any-depth prefix Glob returns exactly the matching direct children of the
      root, in listing order, whatever lies deeper: provided the driver reports
      the root under the path it was asked for, up to trailing separators. */
  lemma DirectChildrenExact(q: Query, info: FileInfo, kids: seq<Entry>)
    requires !q.recursive && info.isDir && WellPlaced(info.path, kids)
    requires NormaliseRoot(info.path) == NormaliseRoot(q.root)
    requires NormaliseRoot(info.path) == "/" ==> info.name == ""
    ensures MatchedPaths(q, Script(info, Children(kids))) == DirectMatches(q, info.path, kids)
  {
    var script := Script(info, Children(kids));
    KidsMatch(q, info.path, kids);
    assert script[1..] == ScriptKids(info.path, kids);
    assert !Matched(q, script[0].visit);
  }

  /** With a root given relative, as "a", no absolute path has it for a parent:
      a driver that reports absolute paths makes the result empty, whatever the
      tree holds. */
  lemma {:induction false} RelativeRootFindsNothing(q: Query, items: seq<Item>)
    requires !q.recursive && q.root != "" && q.root[0] != '/'
    requires forall i :: 0 <= i < |items| ==> "/" <= items[i].visit.path
    ensures MatchedPaths(q, items) == []
    decreases |items|
  {
    if items != [] {
      var t := RightSlashTrimmed(items[0].visit.path);
      assert t[0] == '/';
      assert NormaliseRoot(q.root)[0] == q.root[0];
      RelativeRootFindsNothing(q, items[1..]);
    }
  }

  /** Whatever is listed under an absolute path is visited under one. */
  lemma {:induction false} AbsolutePaths(info: FileInfo, listing: Listing)
    requires "/" <= info.path && (info.isDir && listing.Children? ==> WellPlaced(info.path, listing.kids))
    ensures forall i :: 0 <= i < |Script(info, listing)| ==> "/" <= Script(info, listing)[i].visit.path
    decreases listing, 0
  {
    if info.isDir && listing.Children? {
      AbsoluteKids(info.path, listing.kids);
    }
  }

  lemma {:induction false} AbsoluteKids(dir: string, kids: seq<Entry>)
    requires "/" <= dir && WellPlaced(dir, kids)
    ensures forall i :: 0 <= i < |ScriptKids(dir, kids)| ==> "/" <= ScriptKids(dir, kids)[i].visit.path
    decreases kids
  {
    if kids != [] {
      var e := Placed(dir, kids[0]);
      assert kids[0] in kids && kids[0].listing < kids[0];
      ParentOfJoin(dir, e.info.name);
      AbsolutePaths(e.info, e.listing);
      AbsoluteKids(dir, kids[1..]);
    }
  }

  /** The non-recursive form on a driver that reports a directory under its
      normal path, as the drivers here do: the answer is the matching direct
      children exactly when the root was given empty or absolute, or when there
      are none. */
  lemma NonRecursiveExact(q: Query, info: FileInfo, kids: seq<Entry>)
    requires !q.recursive && info.isDir && info.path == NormPath(q.root) && WellPlaced(info.path, kids)
    requires info.path == "/" ==> info.name == ""
    ensures MatchedPaths(q, Script(info, Children(kids))) == DirectMatches(q, info.path, kids)
      <==> q.root == "" || q.root[0] == '/' || DirectMatches(q, info.path, kids) == []
  {
    AbsoluteRoot(q.root);
    NormalIsTrimmed(info.path);
    if q.root == "" || q.root[0] == '/' {
      DirectChildrenExact(q, info, kids);
    } else {
      AbsolutePaths(info, Children(kids));
      RelativeRootFindsNothing(q, Script(info, Children(kids)));
    }
  }

  lemma NormalIsTrimmed(p: string)
    requires Normal(p)
    ensures NormaliseRoot(p) == p
  {
  }

  // ---------------------------------------------------- the recursive form

  /** The entry at an address has a name, and it matches. */
  predicate MatchesAt(q: Query, info: FileInfo, listing: Listing, a: Address) {
    && EntryAt(info, listing, a).Some?
    && var name := EntryAt(info, listing, a).value.info.name;
    name != "" && q.matches(q.pattern, name) == Some(true)
  }

  /** Address `a` is a match before position `n`, and `path` is its path. */
  predicate IsFound(q: Query, info: FileInfo, listing: Listing, a: Address, n: nat, path: string) {
    && MatchesAt(q, info, listing, a)
    && Position(info, listing, a) < n
    && EntryAt(info, listing, a).value.info.path == path
  }

  ghost predicate Sound(q: Query, info: FileInfo, listing: Listing, n: nat, found: seq<Address>, paths: seq<string>) {
    && |found| == |paths|
    && (forall i :: 0 <= i < |found| ==> IsFound(q, info, listing, found[i], n, paths[i]))
    && (forall i, j :: 0 <= i < j < |found| ==> Before(found[i], found[j]))
  }

  ghost predicate Complete(q: Query, info: FileInfo, listing: Listing, n: nat, found: seq<Address>) {
    forall a :: MatchesAt(q, info, listing, a) && Position(info, listing, a) < n ==> a in found
  }

  /** The matching addresses at positions before `n`, in order. */
  lemma {:induction false} FindsUpTo(q: Query, info: FileInfo, listing: Listing, n: nat) returns (found: seq<Address>)
    requires q.recursive && n <= |Script(info, listing)|
    ensures Sound(q, info, listing, n, found, MatchedPaths(q, Script(info, listing)[..n]))
    ensures Complete(q, info, listing, n, found)
    decreases n
  {
    hide Script, EntryAt, Position, Sound, Complete;
    if n == 0 {
      found := [];
      NothingYet(q, info, listing);
    } else {
      var k := n - 1;
      var before := FindsUpTo(q, info, listing, k);
      var a := ItemHasEntry(info, listing, k);
      var item := Script(info, listing)[k];
      var paths := MatchedPaths(q, Script(info, listing)[..k]);
      OneMorePath(q, Script(info, listing), k);
      assert paths + [] == paths;
      if item.visit.err.None? {
        found := if Matched(q, item.visit) then before + [a] else before;
        SoundStep(q, info, listing, k, before, paths, a);
        CompleteStep(q, info, listing, k, before, a);
      } else {
        found := before;
        ExtraCall(q, info, listing, k, before, paths);
      }
    }
  }

  lemma NothingYet(q: Query, info: FileInfo, listing: Listing)
    ensures Sound(q, info, listing, 0, [], MatchedPaths(q, Script(info, listing)[..0]))
    ensures Complete(q, info, listing, 0, [])
  {
  }

  lemma OneMorePath(q: Query, script: seq<Item>, k: nat)
    requires k < |script|
    ensures MatchedPaths(q, script[..k + 1])
         == MatchedPaths(q, script[..k]) + (if Matched(q, script[k].visit) then [script[k].visit.path] else [])
  {
    assert script[..k + 1] == script[..k] + [script[k]];
    PathsAppend(q, script[..k], [script[k]]);
    var last := [script[k]];
    assert last[1..] == [];
  }

  lemma SoundStep(q: Query, info: FileInfo, listing: Listing, k: nat, before: seq<Address>, paths: seq<string>, a: Address)
    requires q.recursive && Sound(q, info, listing, k, before, paths)
    requires EntryAt(info, listing, a).Some? && Position(info, listing, a) == k
    ensures var e := EntryAt(info, listing, a).value;
      if Matched(q, Visit(e.info.path, e.info, None))
      then Sound(q, info, listing, k + 1, before + [a], paths + [e.info.path])
      else Sound(q, info, listing, k + 1, before, paths)
  {
    forall i | 0 <= i < |before|
      ensures Before(before[i], a)
    {
      assert IsFound(q, info, listing, before[i], k, paths[i]);
      PositionOrder(info, listing, before[i], a);
    }
    hide EntryAt, Position, Before;
  }

  lemma CompleteStep(q: Query, info: FileInfo, listing: Listing, k: nat, before: seq<Address>, a: Address)
    requires q.recursive && Complete(q, info, listing, k, before)
    requires EntryAt(info, listing, a).Some? && Position(info, listing, a) == k
    ensures var e := EntryAt(info, listing, a).value;
      Complete(q, info, listing, k + 1, if Matched(q, Visit(e.info.path, e.info, None)) then before + [a] else before)
  {
    hide EntryAt, Position;
    forall b | MatchesAt(q, info, listing, b) && Position(info, listing, b) == k
      ensures b == a
    {
      PositionOrder(info, listing, a, b);
    }
  }

  /** No entry stands where a failed listing is reported. */
  lemma ExtraCall(q: Query, info: FileInfo, listing: Listing, k: nat, before: seq<Address>, paths: seq<string>)
    requires k < |Script(info, listing)| && Script(info, listing)[k].visit.err.Some?
    requires Sound(q, info, listing, k, before, paths) && Complete(q, info, listing, k, before)
    ensures Sound(q, info, listing, k + 1, before, paths) && Complete(q, info, listing, k + 1, before)
  {
    hide Script, EntryAt, Position;
    forall b | MatchesAt(q, info, listing, b)
      ensures Position(info, listing, b) != k
    {
      SubtreeContiguous(info, listing, b);
    }
  }

  /** With the any-depth prefix Glob returns exactly the named entries that match,
      at whatever depth, each once and parents first, siblings in listing order. */
  lemma RecursiveExact(q: Query, info: FileInfo, listing: Listing) returns (found: seq<Address>)
    requires q.recursive
    ensures Sound(q, info, listing, |Script(info, listing)|, found, MatchedPaths(q, Script(info, listing)))
    ensures forall a :: MatchesAt(q, info, listing, a) ==> a in found
  {
    hide EntryAt, Position;
    var script := Script(info, listing);
    found := FindsUpTo(q, info, listing, |script|);
    assert script[..|script|] == script;
    forall a | MatchesAt(q, info, listing, a)
      ensures a in found
    {
      SubtreeContiguous(info, listing, a);
    }
  }
}

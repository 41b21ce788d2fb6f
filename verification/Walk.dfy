/** fsutil.Walk over a finite tree, under a callback that carries any state and
    may answer anything.

    The recursive walk is proved equal to a left-to-right scan of one flat
    script, in which a skip is a jump over the entry's subtree. The script is
    then proved to be the preorder of the tree: addresses in lexicographic
    order, each entry once, each subtree contiguous. */
module Walk {
  import opened Options
  import opened Paths

  /** `isSkip` stands for errors.Is(err, SkipDir). */
  datatype Error = Error(code: int, isSkip: bool)

  datatype FileInfo = FileInfo(name: string, path: string, size: int, isDir: bool)

  /** What the driver answers when asked to list an entry. */
  datatype Listing = Children(kids: seq<Entry>) | ListError(error: Error)
  datatype Entry = Entry(info: FileInfo, listing: Listing)

  /** One call of the callback. */
  datatype Visit = Visit(path: string, info: FileInfo, err: Option<Error>)

  type WalkFunc<!S> = (S, Visit) -> (S, Option<Error>)

  /** The entry as walk descends into it: a listing may leave the path out. */
  function Placed(dir: string, e: Entry): Entry {
    if e.info.path == "" then e.(info := e.info.(path := JoinPath(dir, e.info.name))) else e
  }

  method WalkEntry<S>(info: FileInfo, listing: Listing, fn: WalkFunc<S>, s0: S)
    returns (s: S, err: Option<Error>)
    ensures (s, err) == Scan(Script(info, listing), 0, fn, s0)
    ensures var script, calls := Script(info, listing), Calls(Script(info, listing), 0, fn, s0);
      && (forall k :: 0 <= k < |calls| ==> calls[k].index < |script|)
      && (forall k :: 0 <= k < |calls| && calls[k].answer.Some?
                      && (!calls[k].answer.value.isSkip || !script[calls[k].index].visit.info.isDir)
            ==> k == |calls| - 1 && err == calls[k].answer)
      && (err.Some? ==> calls != [] && err == calls[|calls| - 1].answer
                        && (!err.value.isSkip || !script[calls[|calls| - 1].index].visit.info.isDir))
      && (err.None? ==> forall j: nat :: j < |script| ==> (Called(calls, j) <==> !Pruned(script, calls, j)))
    decreases listing
  {
    WalkEndsSo(info, listing, fn, s0);
    ghost var script := Script(info, listing);
    ScriptSized(info, listing);
    var reply: (S, Option<Error>) := fn(s0, Visit(info.path, info, None));
    s, err := reply.0, reply.1;
    if err.Some? {
      if err.value.isSkip && info.isDir {
        err := None;
      }
      return;
    }
    if !info.isDir {
      return;
    }
    match listing
    case ListError(e) =>
      ghost var s1 := s;
      assert Scan(script, 0, fn, s0) == Scan(script, 1, fn, s1);
      reply := fn(s, Visit(info.path, info, Some(e)));
      s, err := reply.0, reply.1;
      if err.Some? && err.value.isSkip {
        err := None;
      }
      assert (s, err) == Scan(script, 1, fn, s1);
    case Children(kids) =>
      ghost var s1 := s;
      ghost var body := ScriptKids(info.path, kids);
      ScanTail(script[..1], body, fn, s1);
      assert script == script[..1] + body;
      assert Scan(script, 0, fn, s0) == Scan(body, 0, fn, s1);
      assert kids[0..] == kids;
      var i := 0;
      while i < |kids|
        invariant 0 <= i <= |kids|
        invariant Scan(body, 0, fn, s1) == Scan(ScriptKids(info.path, kids[i..]), 0, fn, s)
        invariant err == None
      {
        var e := Placed(info.path, kids[i]);
        ghost var rest := ScriptKids(info.path, kids[i + 1..]);
        assert kids[i..][1..] == kids[i + 1..];
        ScriptSized(e.info, e.listing);
        ScanAppend(Script(e.info, e.listing), rest, 0, fn, s);
        s, err := WalkEntry(e.info, e.listing, fn, s);
        if err.Some? {
          return;
        }
        i := i + 1;
      }
      assert kids[i..] == [];
      assert (s, err) == Scan(body, 0, fn, s1);
  }

  /** Walk: a failed Stat of the root goes to the callback, whose answer is the
      result as it stands. */
  method WalkFrom<S>(root: string, stat: Entry, statErr: Option<Error>, fn: WalkFunc<S>, s0: S)
    returns (s: S, err: Option<Error>)
    ensures statErr.None? ==> (s, err) == Scan(Script(stat.info, stat.listing), 0, fn, s0)
    ensures statErr.Some? ==> (s, err) == fn(s0, Visit(root, FileInfo("", root, 0, false), statErr))
  {
    if statErr.Some? {
      var reply := fn(s0, Visit(root, FileInfo("", root, 0, false), statErr));
      return reply.0, reply.1;
    }
    s, err := WalkEntry(stat.info, stat.listing, fn, s0);
  }

  // ------------------------------------------------------- the flat script

  /** One callback in order; `span` counts the items a skip jumps over. */
  datatype Item = Item(visit: Visit, span: nat)

  function Script(info: FileInfo, listing: Listing): seq<Item>
    decreases listing, 0
  {
    if !info.isDir then [Item(Visit(info.path, info, None), 1)]
    else match listing
      case ListError(e) =>
        [Item(Visit(info.path, info, None), 2), Item(Visit(info.path, info, Some(e)), 1)]
      case Children(kids) =>
        var body := ScriptKids(info.path, kids);
        [Item(Visit(info.path, info, None), 1 + |body|)] + body
  }

  function ScriptKids(dir: string, kids: seq<Entry>): seq<Item>
    decreases kids
  {
    if kids == [] then []
    else
      var e := Placed(dir, kids[0]);
      assert kids[0].listing < kids[0];
      Script(e.info, e.listing) + ScriptKids(dir, kids[1..])
  }

  /** The callback's answer ends the scan: an error that is not a skip of a
      directory. */
  predicate Stops(item: Item, answer: Option<Error>) {
    answer.Some? && !(answer.value.isSkip && item.visit.info.isDir)
  }

  function Next(item: Item, i: nat, answer: Option<Error>): nat {
    if answer.Some? then i + item.span else i + 1
  }

  predicate Sized(script: seq<Item>) {
    forall i :: 0 <= i < |script| ==> 1 <= script[i].span <= |script| - i
  }

  /** Left to right; a skip jumps, any other error stops and is the result. */
  function Scan<S>(script: seq<Item>, i: nat, fn: WalkFunc<S>, s: S): (S, Option<Error>)
    decreases |script| - i
  {
    if i >= |script| || script[i].span == 0 then (s, None)
    else
      var (s1, answer) := fn(s, script[i].visit);
      if Stops(script[i], answer) then (s1, answer)
      else Scan(script, Next(script[i], i, answer), fn, s1)
  }

  lemma {:induction false} ScriptSized(info: FileInfo, listing: Listing)
    ensures Sized(Script(info, listing))
    decreases listing, 0
  {
    if info.isDir && listing.Children? {
      KidsSized(info.path, listing.kids);
    }
  }

  lemma {:induction false} KidsSized(dir: string, kids: seq<Entry>)
    ensures Sized(ScriptKids(dir, kids))
    decreases kids
  {
    if kids != [] {
      var e := Placed(dir, kids[0]);
      assert kids[0].listing < kids[0];
      ScriptSized(e.info, e.listing);
      KidsSized(dir, kids[1..]);
    }
  }

  /** Scanning a concatenation is scanning the parts in turn. */
  lemma {:induction false} ScanAppend<S>(a: seq<Item>, b: seq<Item>, i: nat, fn: WalkFunc<S>, s: S)
    requires Sized(a) && i <= |a|
    ensures Scan(a + b, i, fn, s) ==
      var (s1, err) := Scan(a, i, fn, s); if err.Some? then (s1, err) else Scan(b, 0, fn, s1)
    decreases |a| - i
  {
    if i == |a| {
      ScanTail(a, b, fn, s);
    } else {
      assert (a + b)[i] == a[i];
      var (s1, answer) := fn(s, a[i].visit);
      if !Stops(a[i], answer) {
        ScanAppend(a, b, Next(a[i], i, answer), fn, s1);
      }
    }
  }

  lemma ScanTail<S>(a: seq<Item>, b: seq<Item>, fn: WalkFunc<S>, s: S)
    ensures Scan(a + b, |a|, fn, s) == Scan(b, 0, fn, s)
  {
    ScanShift(a, b, 0, fn, s);
  }

  lemma {:induction false} ScanShift<S>(a: seq<Item>, b: seq<Item>, i: nat, fn: WalkFunc<S>, s: S)
    ensures Scan(a + b, |a| + i, fn, s) == Scan(b, i, fn, s)
    decreases |b| - i
  {
    if i < |b| && b[i].span != 0 {
      assert (a + b)[|a| + i] == b[i];
      var (s1, answer) := fn(s, b[i].visit);
      if !Stops(b[i], answer) {
        ScanShift(a, b, Next(b[i], i, answer), fn, s1);
      }
    }
  }

  // ------------------------------------- which entries a scan calls back on

  datatype Call = Call(index: nat, answer: Option<Error>)

  /** Every call a scan makes, with its answer. */
  function Calls<S>(script: seq<Item>, i: nat, fn: WalkFunc<S>, s: S): seq<Call>
    decreases |script| - i
  {
    if i >= |script| || script[i].span == 0 then []
    else
      var (s1, answer) := fn(s, script[i].visit);
      [Call(i, answer)] +
      if Stops(script[i], answer) then [] else Calls(script, Next(script[i], i, answer), fn, s1)
  }

  /** The callback, keeping a log of its calls and answers in its state. */
  function Logging<S>(fn: WalkFunc<S>): WalkFunc<(S, seq<(Visit, Option<Error>)>)> {
    (s: (S, seq<(Visit, Option<Error>)>), v: Visit) =>
      var (s1, answer) := fn(s.0, v);
      ((s1, s.1 + [(v, answer)]), answer)
  }

  function Logged(script: seq<Item>, calls: seq<Call>): seq<(Visit, Option<Error>)> {
    if calls == [] then []
    else
      (if calls[0].index < |script| then [(script[calls[0].index].visit, calls[0].answer)] else [])
      + Logged(script, calls[1..])
  }

  /** The calls are the ones a callback sees: a log kept by the callback itself
      holds just them, and keeping it changes nothing else. */
  lemma {:induction false} CallsAreSeen<S>(script: seq<Item>, i: nat, fn: WalkFunc<S>, s: S, log: seq<(Visit, Option<Error>)>)
    ensures Scan(script, i, Logging(fn), (s, log)) ==
      ((Scan(script, i, fn, s).0, log + Logged(script, Calls(script, i, fn, s))), Scan(script, i, fn, s).1)
    decreases |script| - i
  {
    var calls := Calls(script, i, fn, s);
    if i >= |script| || script[i].span == 0 {
      assert log + [] == log;
    } else {
      var (s1, answer) := fn(s, script[i].visit);
      var entry := [(script[i].visit, answer)];
      if Stops(script[i], answer) {
        assert calls[1..] == [];
        assert Logged(script, calls) == entry + [];
        assert entry + [] == entry;
      } else {
        var n := Next(script[i], i, answer);
        CallsAreSeen(script, n, fn, s1, log + entry);
        assert calls[1..] == Calls(script, n, fn, s1);
        assert log + entry + Logged(script, calls[1..]) == log + (entry + Logged(script, calls[1..]));
      }
    }
  }

  /** The item lies strictly inside a subtree whose head was answered with an
      error. */
  predicate Pruned(script: seq<Item>, calls: seq<Call>, j: nat) {
    exists k :: 0 <= k < |calls| && calls[k].index < |script| && calls[k].answer.Some?
      && calls[k].index < j < calls[k].index + script[calls[k].index].span
  }

  /** The scan stopped before reaching the item. */
  predicate PastStop(script: seq<Item>, calls: seq<Call>, j: nat) {
    && calls != []
    && var last := calls[|calls| - 1];
    last.index < |script| && Stops(script[last.index], last.answer) && last.index < j
  }

  /** An item is called back on exactly when no skip pruned it and no error
      stopped the scan before it; calls run forward and none repeats; only the
      last call can stop the scan, and then its error is the result. */
  ghost predicate ExactCalls(script: seq<Item>, i: nat, calls: seq<Call>, err: Option<Error>) {
    && (forall k :: 0 <= k < |calls| ==> i <= calls[k].index < |script|)
    && (forall k, l :: 0 <= k < l < |calls| ==> calls[k].index < calls[l].index)
    && (forall k :: 0 <= k < |calls| - 1 ==> !Stops(script[calls[k].index], calls[k].answer))
    && (err.Some? <==> calls != [] && Stops(script[calls[|calls| - 1].index], calls[|calls| - 1].answer))
    && (err.Some? ==> err == calls[|calls| - 1].answer)
    && (forall j: nat :: i <= j < |script| ==>
          (Called(calls, j) <==> !Pruned(script, calls, j) && !PastStop(script, calls, j)))
  }

  predicate Called(calls: seq<Call>, j: nat) {
    exists k :: 0 <= k < |calls| && calls[k].index == j
  }

  /** What ends a walk, told from its calls: an error that is no skip, or a skip
      where no directory is visited. Such an answer belongs to the last call and is
      the result; without one the result is no error, and just the items inside a
      subtree that was skipped go without a call. */
  lemma WalkEndsSo<S>(info: FileInfo, listing: Listing, fn: WalkFunc<S>, s: S)
    ensures var script, calls := Script(info, listing), Calls(Script(info, listing), 0, fn, s);
      var err := Scan(script, 0, fn, s).1;
      && (forall k :: 0 <= k < |calls| ==> calls[k].index < |script|)
      && (forall k :: 0 <= k < |calls| && calls[k].answer.Some?
                      && (!calls[k].answer.value.isSkip || !script[calls[k].index].visit.info.isDir)
            ==> k == |calls| - 1 && err == calls[k].answer)
      && (err.Some? ==> calls != [] && err == calls[|calls| - 1].answer
                        && (!err.value.isSkip || !script[calls[|calls| - 1].index].visit.info.isDir))
      && (err.None? ==> forall j: nat :: j < |script| ==> (Called(calls, j) <==> !Pruned(script, calls, j)))
  {
    var script, calls := Script(info, listing), Calls(Script(info, listing), 0, fn, s);
    ScriptSized(info, listing);
    CallsExact(script, 0, fn, s);
    hide Script, Calls, Scan, ScriptKids;
  }

  /** Under any callback whatever, the calls are exact. */
  lemma {:induction false} CallsExact<S>(script: seq<Item>, i: nat, fn: WalkFunc<S>, s: S)
    requires Sized(script) && i <= |script|
    ensures ExactCalls(script, i, Calls(script, i, fn, s), Scan(script, i, fn, s).1)
    decreases |script| - i
  {
    if i < |script| {
      var (s1, answer) := fn(s, script[i].visit);
      if Stops(script[i], answer) {
        StopIsExact(script, i, answer);
      } else {
        var n := Next(script[i], i, answer);
        CallsExact(script, n, fn, s1);
        StepIsExact(script, i, answer, Calls(script, n, fn, s1), Scan(script, n, fn, s1).1);
        hide ExactCalls;
      }
    }
  }

  lemma StopIsExact(script: seq<Item>, i: nat, answer: Option<Error>)
    requires Sized(script) && i < |script| && Stops(script[i], answer)
    ensures ExactCalls(script, i, [Call(i, answer)], answer)
  {
    assert [Call(i, answer)][0].index == i;
  }

  lemma StepIsExact(script: seq<Item>, i: nat, answer: Option<Error>, rest: seq<Call>, err: Option<Error>)
    requires Sized(script) && i < |script| && !Stops(script[i], answer)
    requires ExactCalls(script, Next(script[i], i, answer), rest, err)
    ensures ExactCalls(script, i, [Call(i, answer)] + rest, err)
  {
    hide Pruned, PastStop, Called;
    forall j: nat | i <= j < |script|
      ensures Called([Call(i, answer)] + rest, j)
          <==> !Pruned(script, [Call(i, answer)] + rest, j) && !PastStop(script, [Call(i, answer)] + rest, j)
    {
      CallsStep(script, i, answer, rest, j);
    }
  }

  lemma CallsStep(script: seq<Item>, i: nat, answer: Option<Error>, rest: seq<Call>, j: nat)
    requires Sized(script) && i <= j < |script| && !Stops(script[i], answer)
    requires forall k :: 0 <= k < |rest| ==> Next(script[i], i, answer) <= rest[k].index < |script|
    requires Next(script[i], i, answer) <= j ==>
      (Called(rest, j)
       <==> !Pruned(script, rest, j) && !PastStop(script, rest, j))
    ensures var calls := [Call(i, answer)] + rest;
      Called(calls, j)
      <==> !Pruned(script, calls, j) && !PastStop(script, calls, j)
  {
    var calls := [Call(i, answer)] + rest;
    assert calls[0] == Call(i, answer);
    assert forall k :: 0 <= k < |rest| ==> calls[k + 1] == rest[k];
    assert forall k :: 1 <= k < |calls| ==> calls[k] == rest[k - 1];
    if j < Next(script[i], i, answer) {
      if j > i {
        assert Pruned(script, calls, j);
      }
    } else {
      assert Pruned(script, calls, j) <==> Pruned(script, rest, j);
      assert PastStop(script, calls, j) <==> PastStop(script, rest, j);
    }
  }

  // -------------------------------------------- the script is the preorder

  /** An entry's address: the child indices that lead to it from the root. */
  type Address = seq<nat>

  function EntryAt(info: FileInfo, listing: Listing, a: Address): Option<Entry>
    decreases |a|
  {
    if a == [] then Some(Entry(info, listing))
    else if info.isDir && listing.Children? && a[0] < |listing.kids| then
      var e := Placed(info.path, listing.kids[a[0]]);
      EntryAt(e.info, e.listing, a[1..])
    else None
  }

  /** Parents before descendants, siblings in listing order. */
  predicate Before(a: Address, b: Address)
    decreases |a|
  {
    b != [] && (a == [] || a[0] < b[0] || (a[0] == b[0] && Before(a[1..], b[1..])))
  }

  /** Where the script holds the entry with this address. */
  function Position(info: FileInfo, listing: Listing, a: Address): nat
    requires EntryAt(info, listing, a).Some?
    decreases |a|
  {
    if a == [] then 0
    else
      var e := Placed(info.path, listing.kids[a[0]]);
      1 + |ScriptKids(info.path, listing.kids[..a[0]])| + Position(e.info, e.listing, a[1..])
  }

  lemma {:induction false} KidsAppend(dir: string, a: seq<Entry>, b: seq<Entry>)
    ensures ScriptKids(dir, a + b) == ScriptKids(dir, a) + ScriptKids(dir, b)
    decreases |a|
  {
    if a == [] {
      assert a + b == b;
    } else {
      assert (a + b)[1..] == a[1..] + b;
      KidsAppend(dir, a[1..], b);
    }
  }

  /** The script of a directory is its head, the subtrees of the earlier kids,
      the subtree of kid `k`, and those of the later kids. */
  lemma KidSlice(info: FileInfo, kids: seq<Entry>, k: nat)
    requires info.isDir && k < |kids|
    ensures var e := Placed(info.path, kids[k]);
      Script(info, Children(kids)) == [Script(info, Children(kids))[0]]
        + ScriptKids(info.path, kids[..k]) + Script(e.info, e.listing) + ScriptKids(info.path, kids[k + 1..])
  {
    var head := [Script(info, Children(kids))[0]];
    assert Script(info, Children(kids)) == head + ScriptKids(info.path, kids);
    hide Script, ScriptKids;
    var e := Placed(info.path, kids[k]);
    assert kids == kids[..k] + kids[k..];
    KidsAppend(info.path, kids[..k], kids[k..]);
    KidFirst(info.path, kids, k);
    Regroup(head, ScriptKids(info.path, kids[..k]), Script(e.info, e.listing), ScriptKids(info.path, kids[k + 1..]));
  }

  lemma Regroup<T>(a: seq<T>, b: seq<T>, c: seq<T>, d: seq<T>)
    ensures a + (b + (c + d)) == a + b + c + d
  {
  }

  lemma KidFirst(dir: string, kids: seq<Entry>, k: nat)
    requires k < |kids|
    ensures var e := Placed(dir, kids[k]);
      ScriptKids(dir, kids[k..]) == Script(e.info, e.listing) + ScriptKids(dir, kids[k + 1..])
  {
    hide Script;
    assert kids[k..][1..] == kids[k + 1..];
  }

  /** `sub` stands in one piece at `at`. */
  predicate StandsAt<T(==)>(script: seq<T>, sub: seq<T>, at: nat) {
    sub != [] && at + |sub| <= |script| && script[at..at + |sub|] == sub && script[at] == sub[0]
  }

  /** Each entry's subtree stands in one piece at its position, its own visit
      first, and a skip there jumps over exactly that piece. */
  lemma SubtreeContiguous(info: FileInfo, listing: Listing, a: Address)
    requires EntryAt(info, listing, a).Some?
    ensures var script, at, e := Script(info, listing), Position(info, listing, a), EntryAt(info, listing, a).value;
      var sub := Script(e.info, e.listing);
      && 1 <= |sub| && at + |sub| <= |script| && script[at..at + |sub|] == sub
      && script[at].visit == Visit(e.info.path, e.info, None)
      && script[at].span == |sub|
  {
    SubtreeStands(info, listing, a);
    var e := EntryAt(info, listing, a).value;
    ScriptHead(e.info, e.listing);
    hide Script, ScriptKids, EntryAt, Position;
  }

  lemma ScriptHead(info: FileInfo, listing: Listing)
    ensures var script := Script(info, listing);
      script != [] && script[0].visit == Visit(info.path, info, None) && script[0].span == |script|
  {
    hide ScriptKids;
  }

  lemma {:induction false} SubtreeStands(info: FileInfo, listing: Listing, a: Address)
    requires EntryAt(info, listing, a).Some?
    ensures var e := EntryAt(info, listing, a).value;
      StandsAt(Script(info, listing), Script(e.info, e.listing), Position(info, listing, a))
    decreases |a|
  {
    ScriptHead(info, listing);
    if a == [] {
      hide Script;
    } else {
      Descend(info, listing, a);
      hide Script, ScriptKids, EntryAt, Position;
      var kid := Placed(info.path, listing.kids[a[0]]);
      SubtreeStands(kid.info, kid.listing, a[1..]);
      KidSlice(info, listing.kids, a[0]);
      var e := EntryAt(info, listing, a).value;
      SliceOfMiddle([Script(info, listing)[0]] + ScriptKids(info.path, listing.kids[..a[0]]),
                    Script(kid.info, kid.listing), ScriptKids(info.path, listing.kids[a[0] + 1..]),
                    Position(kid.info, kid.listing, a[1..]), Script(e.info, e.listing));
    }
  }

  /** A directory whose listing fails is called back on twice in a row, the second
      time with the error. */
  lemma FailureIsReported(info: FileInfo, listing: Listing, a: Address)
    requires EntryAt(info, listing, a).Some?
    requires EntryAt(info, listing, a).value.info.isDir && EntryAt(info, listing, a).value.listing.ListError?
    ensures var script, at, e := Script(info, listing), Position(info, listing, a), EntryAt(info, listing, a).value;
      && at + 1 < |script| && script[at].visit == Visit(e.info.path, e.info, None)
      && script[at + 1].visit == Visit(e.info.path, e.info, Some(e.listing.error))
  {
    SubtreeContiguous(info, listing, a);
    var e := EntryAt(info, listing, a).value;
    var sub := Script(e.info, e.listing);
    assert |sub| == 2 && sub[1].visit == Visit(e.info.path, e.info, Some(e.listing.error));
    hide Script, EntryAt, Position;
    var script, at := Script(info, listing), Position(info, listing, a);
    assert script[at..at + |sub|][1] == script[at + 1];
  }

  /** One step down an address. */
  lemma Descend(info: FileInfo, listing: Listing, a: Address)
    requires a != [] && EntryAt(info, listing, a).Some?
    ensures info.isDir && listing.Children? && a[0] < |listing.kids|
    ensures var kid := Placed(info.path, listing.kids[a[0]]);
      && EntryAt(info, listing, a) == EntryAt(kid.info, kid.listing, a[1..])
      && Position(info, listing, a)
         == 1 + |ScriptKids(info.path, listing.kids[..a[0]])| + Position(kid.info, kid.listing, a[1..])
  {
    hide ScriptKids;
  }

  lemma MiddleAt<T>(a: seq<T>, b: seq<T>, c: seq<T>, j: nat)
    requires j < |b|
    ensures (a + b + c)[|a| + j] == b[j]
  {
  }

  lemma SliceOfMiddle<T>(a: seq<T>, b: seq<T>, c: seq<T>, at: nat, sub: seq<T>)
    requires StandsAt(b, sub, at)
    ensures StandsAt(a + b + c, sub, |a| + at)
  {
  }

  /** Positions follow the address order, so no entry stands twice. */
  lemma {:induction false} PositionMonotone(info: FileInfo, listing: Listing, a: Address, b: Address)
    requires EntryAt(info, listing, a).Some? && EntryAt(info, listing, b).Some?
    requires Before(a, b)
    ensures Position(info, listing, a) < Position(info, listing, b)
    decreases |a|
  {
    if a != [] {
      var kids := listing.kids;
      if a[0] == b[0] {
        var kid := Placed(info.path, kids[a[0]]);
        PositionMonotone(kid.info, kid.listing, a[1..], b[1..]);
      } else {
        var kid := Placed(info.path, kids[a[0]]);
        SubtreeContiguous(kid.info, kid.listing, a[1..]);
        assert kids[..b[0]] == kids[..a[0]] + kids[a[0]..b[0]];
        KidsAppend(info.path, kids[..a[0]], kids[a[0]..b[0]]);
        assert kids[a[0]..b[0]][0] == kids[a[0]];
      }
    }
  }

  lemma {:induction false} BeforeTotal(a: Address, b: Address)
    requires a != b
    ensures Before(a, b) || Before(b, a)
    decreases |a|
  {
    if a != [] && b != [] && a[0] == b[0] {
      assert a == [a[0]] + a[1..] && b == [b[0]] + b[1..];
      BeforeTotal(a[1..], b[1..]);
    }
  }

  /** Two addresses are in order exactly when their visits are. */
  lemma PositionOrder(info: FileInfo, listing: Listing, a: Address, b: Address)
    requires EntryAt(info, listing, a).Some? && EntryAt(info, listing, b).Some?
    ensures Before(a, b) <==> Position(info, listing, a) < Position(info, listing, b)
    ensures a == b <==> Position(info, listing, a) == Position(info, listing, b)
  {
    if Before(a, b) { PositionMonotone(info, listing, a, b); }
    if Before(b, a) { PositionMonotone(info, listing, b, a); }
    if a != b { BeforeTotal(a, b); }
  }

  // ---------------------------------------------------------- lexical order

  /** The order of names, character by character. */
  predicate NameLess(a: string, b: string) {
    b != "" && (a == "" || a[0] < b[0] || (a[0] == b[0] && NameLess(a[1..], b[1..])))
  }

  /** The order of paths, name by name. */
  predicate PathLess(a: seq<string>, b: seq<string>) {
    b != [] && (a == [] || NameLess(a[0], b[0]) || (a[0] == b[0] && PathLess(a[1..], b[1..])))
  }

  /** Where two names part, their characters there decide; a name comes ahead of
      those that go on after it. */
  lemma {:induction false} NameOrder(p: string, c: char, x: string, d: char, y: string)
    requires c != d
    ensures NameLess(p + [c] + x, p + [d] + y) <==> c < d
    ensures NameLess(p, p + [c] + x) && !NameLess(p + [c] + x, p) && !NameLess(p, p)
    decreases |p|
  {
    var a, b := p + [c] + x, p + [d] + y;
    if p != "" {
      assert a[1..] == p[1..] + [c] + x && b[1..] == p[1..] + [d] + y;
      NameOrder(p[1..], c, x, d, y);
    }
  }

  /** The same for paths, and their names. */
  lemma {:induction false} NamesOrder(p: seq<string>, m: string, x: seq<string>, n: string, y: seq<string>)
    requires m != n
    ensures PathLess(p + [m] + x, p + [n] + y) <==> NameLess(m, n)
    ensures PathLess(p, p + [m] + x) && !PathLess(p + [m] + x, p) && !PathLess(p, p)
    decreases |p|
  {
    var a, b := p + [m] + x, p + [n] + y;
    if p != [] {
      assert a[1..] == p[1..] + [m] + x && b[1..] == p[1..] + [n] + y;
      NotLess(p[0]);
      NamesOrder(p[1..], m, x, n, y);
    }
  }

  /** The names that lead to an entry from the root. */
  function NamesTo(info: FileInfo, listing: Listing, a: Address): seq<string>
    requires EntryAt(info, listing, a).Some?
    decreases |a|
  {
    if a == [] then []
    else
      var e := Placed(info.path, listing.kids[a[0]]);
      [e.info.name] + NamesTo(e.info, e.listing, a[1..])
  }

  predicate Sorted(kids: seq<Entry>) {
    forall i, j :: 0 <= i < j < |kids| ==> NameLess(kids[i].info.name, kids[j].info.name)
  }

  /** Every listing of the tree came sorted by name. */
  ghost predicate ListedInOrder(info: FileInfo, listing: Listing) {
    forall a: Address :: EntryAt(info, listing, a).Some? && Lists(EntryAt(info, listing, a).value)
      ==> Sorted(EntryAt(info, listing, a).value.listing.kids)
  }

  predicate Lists(e: Entry) {
    e.info.isDir && e.listing.Children?
  }

  /** Entries stand in the script in the order of their paths. */
  ghost predicate VisitedInOrder(info: FileInfo, listing: Listing) {
    forall a: Address, b: Address :: EntryAt(info, listing, a).Some? && EntryAt(info, listing, b).Some?
      && Position(info, listing, a) < Position(info, listing, b)
      ==> PathLess(NamesTo(info, listing, a), NamesTo(info, listing, b))
  }

  /** The walk is in lexical order exactly when every listing is. */
  lemma LexicalExact(info: FileInfo, listing: Listing)
    ensures VisitedInOrder(info, listing) <==> ListedInOrder(info, listing)
  {
    hide Position, EntryAt, NamesTo, PathLess, Before, Sorted, Script, ScriptKids;
    if ListedInOrder(info, listing) {
      forall a: Address, b: Address | EntryAt(info, listing, a).Some? && EntryAt(info, listing, b).Some?
        && Position(info, listing, a) < Position(info, listing, b)
        ensures PathLess(NamesTo(info, listing, a), NamesTo(info, listing, b))
      {
        PositionOrder(info, listing, a, b);
        SortedIsOrdered(info, listing, a, b);
      }
    }
    if VisitedInOrder(info, listing) {
      forall a: Address | EntryAt(info, listing, a).Some? && Lists(EntryAt(info, listing, a).value)
        ensures Sorted(EntryAt(info, listing, a).value.listing.kids)
      {
        OrderedIsSorted(info, listing, a);
      }
    }
  }

  lemma {:induction false} SortedIsOrdered(info: FileInfo, listing: Listing, a: Address, b: Address)
    requires EntryAt(info, listing, a).Some? && EntryAt(info, listing, b).Some? && Before(a, b)
    requires ListedInOrder(info, listing)
    ensures PathLess(NamesTo(info, listing, a), NamesTo(info, listing, b))
    decreases |a|
  {
    if a != [] {
      assert EntryAt(info, listing, []) == Some(Entry(info, listing));
      assert Lists(Entry(info, listing)) && Sorted(listing.kids);
      var kid := Placed(info.path, listing.kids[a[0]]);
      if a[0] == b[0] {
        forall c: Address | EntryAt(kid.info, kid.listing, c).Some? && Lists(EntryAt(kid.info, kid.listing, c).value)
          ensures Sorted(EntryAt(kid.info, kid.listing, c).value.listing.kids)
        {
          assert ([a[0]] + c)[1..] == c;
          assert EntryAt(info, listing, [a[0]] + c) == EntryAt(kid.info, kid.listing, c);
        }
        SortedIsOrdered(kid.info, kid.listing, a[1..], b[1..]);
      }
    }
  }

  lemma OrderedIsSorted(info: FileInfo, listing: Listing, a: Address)
    requires EntryAt(info, listing, a).Some? && Lists(EntryAt(info, listing, a).value)
    requires VisitedInOrder(info, listing)
    ensures Sorted(EntryAt(info, listing, a).value.listing.kids)
  {
    hide Position, EntryAt, NamesTo, PathLess, Before, NameLess;
    var kids := EntryAt(info, listing, a).value.listing.kids;
    forall i: nat, j: nat | i < j < |kids|
      ensures NameLess(kids[i].info.name, kids[j].info.name)
    {
      Siblings(info, listing, a, i, j);
      PositionOrder(info, listing, a + [i], a + [j]);
    }
  }

  /** Two kids of one entry: their addresses are in order, and their paths are
      exactly when their names are. */
  lemma {:induction false} Siblings(info: FileInfo, listing: Listing, a: Address, i: nat, j: nat)
    requires EntryAt(info, listing, a).Some? && Lists(EntryAt(info, listing, a).value)
    requires i < j < |EntryAt(info, listing, a).value.listing.kids|
    ensures EntryAt(info, listing, a + [i]).Some? && EntryAt(info, listing, a + [j]).Some? && Before(a + [i], a + [j])
    ensures var kids := EntryAt(info, listing, a).value.listing.kids;
      PathLess(NamesTo(info, listing, a + [i]), NamesTo(info, listing, a + [j]))
      <==> NameLess(kids[i].info.name, kids[j].info.name)
    decreases |a|
  {
    if a == [] {
      assert a + [i] == [i] && a + [j] == [j];
    } else {
      var kid := Placed(info.path, listing.kids[a[0]]);
      Siblings(kid.info, kid.listing, a[1..], i, j);
      assert (a + [i])[1..] == a[1..] + [i] && (a + [j])[1..] == a[1..] + [j];
      NotLess(kid.info.name);
    }
  }

  /** Where a listed entry is visited: under the path the listing gave it, or, if
      it gave none, under its name in the directory's path; nothing else about it
      changes. */
  lemma {:induction false} PathAsListed(info: FileInfo, listing: Listing, a: Address, i: nat)
    requires EntryAt(info, listing, a).Some? && Lists(EntryAt(info, listing, a).value)
    requires i < |EntryAt(info, listing, a).value.listing.kids|
    ensures var dir, kid := EntryAt(info, listing, a).value, EntryAt(info, listing, a).value.listing.kids[i];
      EntryAt(info, listing, a + [i])
        == Some(Entry(FileInfo(kid.info.name, if kid.info.path != "" then kid.info.path else JoinPath(dir.info.path, kid.info.name),
                               kid.info.size, kid.info.isDir), kid.listing))
    decreases |a|
  {
    if a == [] {
      assert a + [i] == [i];
    } else {
      var kid := Placed(info.path, listing.kids[a[0]]);
      PathAsListed(kid.info, kid.listing, a[1..], i);
      assert (a + [i])[1..] == a[1..] + [i];
    }
  }

  lemma {:induction false} NotLess(a: string)
    ensures !NameLess(a, a)
    decreases |a|
  {
    if a != "" {
      NotLess(a[1..]);
    }
  }

  /** Every item of the script belongs to one entry: its visit, or the extra
      call for a directory whose listing failed. */
  lemma {:induction false} ItemHasEntry(info: FileInfo, listing: Listing, i: nat) returns (a: Address)
    requires i < |Script(info, listing)|
    ensures EntryAt(info, listing, a).Some?
    ensures Belongs(Script(info, listing)[i].visit, i, EntryAt(info, listing, a).value, Position(info, listing, a))
    decreases listing, 0
  {
    if i == 0 || !info.isDir || listing.ListError? {
      a := [];
      RootItem(info, listing, i);
    } else {
      var k, j := KidOfItem(info.path, listing.kids, i - 1);
      var kid := Placed(info.path, listing.kids[k]);
      var sub := ItemHasEntry(kid.info, kid.listing, j);
      a := [k] + sub;
      assert a[1..] == sub;
      assert EntryAt(info, listing, a) == EntryAt(kid.info, kid.listing, sub);
      Descend(info, listing, a);
      hide EntryAt, Position;
      KidSlice(info, listing.kids, k);
      hide Script, ScriptKids;
      MiddleAt([Script(info, listing)[0]] + ScriptKids(info.path, listing.kids[..k]), Script(kid.info, kid.listing),
               ScriptKids(info.path, listing.kids[k + 1..]), j);
    }
  }

  /** The call at `i` is the visit of the entry at `at`, or follows it and reports
      the entry's failed listing. */
  predicate Belongs(v: Visit, i: nat, e: Entry, at: nat) {
    if v.err.None? then i == at && v == Visit(e.info.path, e.info, None)
    else e.info.isDir && e.listing == ListError(v.err.value) && i == at + 1
         && v == Visit(e.info.path, e.info, v.err)
  }

  lemma RootItem(info: FileInfo, listing: Listing, i: nat)
    requires i < |Script(info, listing)| && (i == 0 || !info.isDir || listing.ListError?)
    ensures Belongs(Script(info, listing)[i].visit, i, Entry(info, listing), 0)
  {
    hide ScriptKids;
  }

  lemma {:induction false} KidOfItem(dir: string, kids: seq<Entry>, i: nat) returns (k: nat, j: nat)
    requires i < |ScriptKids(dir, kids)|
    ensures k < |kids|
    ensures var e := Placed(dir, kids[k]);
      j < |Script(e.info, e.listing)| && i == |ScriptKids(dir, kids[..k])| + j
      && kids[k].listing == e.listing
    ensures kids[k] in kids
  {
    var e := Placed(dir, kids[0]);
    if i < |Script(e.info, e.listing)| {
      k, j := 0, i;
    } else {
      var k', j' := KidOfItem(dir, kids[1..], i - |Script(e.info, e.listing)|);
      k, j := k' + 1, j';
      assert kids[..k][1..] == kids[1..][..k'];
    }
  }
}

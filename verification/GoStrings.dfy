/** The part of Go's `strings` package that the drivers build paths, keys and
    multipart bodies with, over sequences of any element type. */
module GoStrings {

  /** `p` occurs in `s` starting at position `i`. */
  predicate OccursAt<T(==)>(s: seq<T>, p: seq<T>, i: int) {
    0 <= i && i + |p| <= |s| && s[i..i + |p|] == p
  }

  predicate HasSuffix<T(==)>(s: seq<T>, p: seq<T>) {
    OccursAt(s, p, |s| - |p|)
  }

  function TrimPrefix<T(==)>(s: seq<T>, p: seq<T>): (r: seq<T>)
    ensures if p <= s then p + r == s else r == s
  {
    if p <= s then s[|p|..] else s
  }

  function TrimSuffix<T(==)>(s: seq<T>, p: seq<T>): (r: seq<T>)
    ensures if HasSuffix(s, p) then r + p == s else r == s
  {
    if HasSuffix(s, p) then s[..|s| - |p|] else s
  }

  /** strings.TrimRight with a one-character cutset. */
  function TrimRight<T(==)>(s: seq<T>, c: T): (r: seq<T>)
    ensures r <= s
    ensures r == [] || r[|r| - 1] != c
    ensures forall i :: |r| <= i < |s| ==> s[i] == c
  {
    if s != [] && s[|s| - 1] == c then TrimRight(s[..|s| - 1], c) else s
  }

  function TrimLeft<T(==)>(s: seq<T>, c: T): (r: seq<T>)
    ensures |r| <= |s| && r == s[|s| - |r|..]
    ensures r == [] || r[0] != c
    ensures forall i :: 0 <= i < |s| - |r| ==> s[i] == c
  {
    if s != [] && s[0] == c then TrimLeft(s[1..], c) else s
  }

  /** strings.Index: the first occurrence of `p` at or after `from`, or -1. */
  function IndexFrom<T(==)>(s: seq<T>, p: seq<T>, from: nat): (r: int)
    requires from <= |s|
    ensures r == -1 || (from <= r && OccursAt(s, p, r))
    ensures forall j :: from <= j && OccursAt(s, p, j) ==> 0 <= r <= j
    decreases |s| - from
  {
    if OccursAt(s, p, from) then from
    else if from == |s| then -1
    else IndexFrom(s, p, from + 1)
  }

  function Index<T(==)>(s: seq<T>, p: seq<T>): (r: int)
    ensures r == -1 || OccursAt(s, p, r)
    ensures forall j :: OccursAt(s, p, j) ==> 0 <= r <= j
  {
    IndexFrom(s, p, 0)
  }

  /** strings.LastIndex: the last occurrence of `p` at or before `from`, or -1. */
  function LastIndexFrom<T(==)>(s: seq<T>, p: seq<T>, from: nat): (r: int)
    requires from <= |s|
    ensures r == -1 || (r <= from && OccursAt(s, p, r))
    ensures forall j :: j <= from && OccursAt(s, p, j) ==> j <= r
    decreases from
  {
    if OccursAt(s, p, from) then from
    else if from == 0 then -1
    else LastIndexFrom(s, p, from - 1)
  }

  function LastIndex<T(==)>(s: seq<T>, p: seq<T>): (r: int)
    ensures r == -1 || OccursAt(s, p, r)
    ensures forall j :: OccursAt(s, p, j) ==> j <= r
  {
    LastIndexFrom(s, p, |s|)
  }

  predicate Contains<T(==)>(s: seq<T>, p: seq<T>) {
    exists i | 0 <= i <= |s| :: OccursAt(s, p, i)
  }

  /** strings.Split: leftmost, non-overlapping occurrences of `sep`. */
  function Split<T(==)>(s: seq<T>, sep: seq<T>): (r: seq<seq<T>>)
    requires sep != []
    ensures |r| >= 1
    decreases |s|
  {
    var i := Index(s, sep);
    if i < 0 then [s] else [s[..i]] + Split(s[i + |sep|..], sep)
  }

  /** strings.Join. */
  function Join<T>(parts: seq<seq<T>>, sep: seq<T>): (r: seq<T>) {
    if parts == [] then []
    else if |parts| == 1 then parts[0]
    else parts[0] + sep + Join(parts[1..], sep)
  }

  /** A one-element pattern occurs exactly where the element stands. */
  lemma OccursOne<T>(s: seq<T>, c: T)
    ensures forall i :: 0 <= i < |s| ==> (OccursAt(s, [c], i) <==> s[i] == c)
  {
    forall i | 0 <= i < |s|
      ensures OccursAt(s, [c], i) <==> s[i] == c
    {
      assert s[i..i + 1] == [s[i]];
    }
  }

  lemma TrimPrefixOf<T>(p: seq<T>, s: seq<T>)
    ensures TrimPrefix(p + s, p) == s
  {
  }

  lemma TrimSuffixOf<T>(s: seq<T>, p: seq<T>)
    ensures HasSuffix(s + p, p) && TrimSuffix(s + p, p) == s
  {
  }

  lemma EndsOtherwise<T>(s: seq<T>, c: T)
    requires s != [] && s[|s| - 1] != c
    ensures !HasSuffix(s, [c])
  {
    OccursOne(s, c);
  }

  lemma JoinCons<T>(head: seq<T>, parts: seq<seq<T>>, sep: seq<T>)
    requires parts != []
    ensures Join([head] + parts, sep) == head + sep + Join(parts, sep)
  {
    assert ([head] + parts)[1..] == parts;
  }

  /** Splitting loses nothing. */
  lemma {:induction false} JoinSplit<T>(s: seq<T>, sep: seq<T>)
    requires sep != []
    ensures Join(Split(s, sep), sep) == s
    decreases |s|
  {
    var i := Index(s, sep);
    if i >= 0 {
      var rest := s[i + |sep|..];
      JoinSplit(rest, sep);
      JoinCons(s[..i], Split(rest, sep), sep);
      CutAtOccurrence(s, sep, i);
    }
  }

  lemma CutAtOccurrence<T>(s: seq<T>, p: seq<T>, i: int)
    requires OccursAt(s, p, i)
    ensures s == s[..i] + p + s[i + |p|..]
  {
  }

  /** No piece of a split contains a one-character separator. */
  lemma {:induction false} SplitPieces<T>(s: seq<T>, c: T)
    ensures forall k :: 0 <= k < |Split(s, [c])| ==> c !in Split(s, [c])[k]
    decreases |s|
  {
    var i := Index(s, [c]);
    if i >= 0 {
      SplitPieces(s[i + 1..], c);
    }
    OccursOne(s, c);
    assert forall j :: 0 <= j < (if i < 0 then |s| else i) ==> !OccursAt(s, [c], j);
  }

  /** A one-character separator that no piece contains splits a join back into
      its pieces. */
  lemma {:induction false} SplitJoin<T>(parts: seq<seq<T>>, c: T)
    requires parts != []
    requires forall k :: 0 <= k < |parts| ==> c !in parts[k]
    ensures Split(Join(parts, [c]), [c]) == parts
    decreases |parts|
  {
    var s := Join(parts, [c]);
    if |parts| == 1 {
      OccursOne(s, c);
    } else {
      var p, rest := parts[0], Join(parts[1..], [c]);
      assert s == p + [c] + rest;
      assert OccursAt(s, [c], |p|);
      assert forall j :: 0 <= j < |p| ==> s[j] == p[j];
      OccursOne(s, c);
      assert Index(s, [c]) == |p|;
      assert s[..|p|] == p && s[|p| + 1..] == rest;
      SplitJoin(parts[1..], c);
    }
  }

  lemma {:induction false} JoinSnoc<T>(parts: seq<seq<T>>, n: seq<T>, sep: seq<T>)
    requires parts != []
    ensures Join(parts + [n], sep) == Join(parts, sep) + sep + n
    decreases |parts|
  {
    if |parts| > 1 {
      JoinSnoc(parts[1..], n, sep);
      assert (parts + [n])[1..] == parts[1..] + [n];
    } else {
      assert (parts + [n])[1..] == [n];
    }
  }

  /** Appending a separator and a piece without one appends to the split. */
  lemma SplitAppend<T>(s: seq<T>, n: seq<T>, c: T)
    requires c !in n
    ensures Split(s + [c] + n, [c]) == Split(s, [c]) + [n]
  {
    SplitPieces(s, c);
    JoinSplit(s, [c]);
    JoinSnoc(Split(s, [c]), n, [c]);
    SplitJoin(Split(s, [c]) + [n], c);
  }

  /** A sequence without the separator is one piece. */
  lemma SplitOne<T>(s: seq<T>, c: T)
    requires c !in s
    ensures Split(s, [c]) == [s]
  {
    SplitJoin([s], c);
  }

  /** The first occurrence of an element that `a` does not hold is after `a`. */
  lemma IndexAfter<T>(a: seq<T>, c: T, rest: seq<T>)
    requires c !in a
    ensures Index(a + [c] + rest, [c]) == |a|
  {
    var s := a + [c] + rest;
    OccursOne(s, c);
    assert s[|a|] == c;
    assert forall j :: 0 <= j < |a| ==> s[j] == a[j];
  }
}

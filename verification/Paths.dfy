/** The slash-separated path algebra every driver shares. */
module Paths {
  import opened GoStrings

  /** Absolute, without a trailing separator, the root as "/". */
  predicate Normal(p: string) {
    "/" <= p && (|p| > 1 ==> p[|p| - 1] != '/')
  }

  /** One path segment: what a listing may call an entry. */
  predicate IsName(n: string) {
    n != "" && '/' !in n
  }

  function NormPath(path: string): (r: string)
    ensures Normal(r)
  {
    var abs := if "/" <= path then path else "/" + path;
    var r := TrimRight(abs, '/');
    if r == "" then "/" else r
  }

  /** The segments of a path below the root; the root has none. */
  function Components(p: string): (r: seq<string>)
    requires Normal(p)
    ensures forall k :: 0 <= k < |r| ==> '/' !in r[k]
  {
    if p == "/" then [] else
      SplitPieces(p[1..], '/');
      Split(p[1..], "/")
  }

  /** The path with the given segments. */
  function PathOf(comps: seq<string>): (r: string)
    ensures "/" <= r
  {
    "/" + Join(comps, "/")
  }

  /** The last non-empty piece, scanning from the right. */
  function LastNonEmpty(parts: seq<string>): string {
    if parts == [] then ""
    else if parts[|parts| - 1] != "" then parts[|parts| - 1]
    else LastNonEmpty(parts[..|parts| - 1])
  }

  function NameOf(path: string): string {
    LastNonEmpty(Split(path, "/"))
  }

  method NameFromPath(path: string) returns (name: string)
    ensures name == NameOf(path)
  {
    var parts := Split(path, "/");
    var i := |parts| - 1;
    assert parts[..i + 1] == parts;
    while i >= 0
      invariant -1 <= i < |parts|
      invariant NameOf(path) == LastNonEmpty(parts[..i + 1])
    {
      assert parts[..i + 1][..i] == parts[..i];
      if parts[i] != "" {
        return parts[i];
      }
      i := i - 1;
    }
    return "";
  }

  /** Every trailing separator but a leading one removed. */
  function RightSlashTrimmed(s: string): (r: string)
    ensures r <= s
    ensures |r| > 1 ==> r[|r| - 1] != '/'
    ensures forall i :: |r| <= i < |s| ==> s[i] == '/'
    ensures s != "" ==> r != ""
  {
    if |s| > 1 && s[|s| - 1] == '/' then RightSlashTrimmed(s[..|s| - 1]) else s
  }

  method TrimRightSlash(s: string) returns (r: string)
    ensures r == RightSlashTrimmed(s)
  {
    r := s;
    while |r| > 1 && r[|r| - 1] == '/'
      invariant RightSlashTrimmed(r) == RightSlashTrimmed(s)
    {
      r := r[..|r| - 1];
    }
  }

  function JoinPath(dir: string, name: string): string {
    var d := RightSlashTrimmed(dir);
    if d == "" || d == "/" then "/" + name else d + "/" + name
  }

  function ParentPath(p: string): string {
    var t := RightSlashTrimmed(p);
    var i := LastIndex(t, "/");
    if i <= 0 then "/" else t[..i]
  }

  function NormaliseRoot(r: string): string {
    if r == "" then "/" else RightSlashTrimmed(r)
  }

  /** splitParent of the Drive and OneDrive drivers. */
  function SplitParent(path: string): (r: (string, string)) {
    var p := NormPath(path);
    if p == "/" then ("/", "")
    else
      var i := LastIndex(p, "/");
      if i <= 0 then ("/", p[1..]) else (p[..i], p[i + 1..])
  }

  /** joinPath of the OneDrive driver, and a child's path in Drive's listings. */
  function ChildPath(dir: string, name: string): string {
    if dir == "/" then "/" + name else dir + "/" + name
  }

  // ---------------------------------------------------------------- laws

  lemma NormPathFixes(p: string)
    ensures Normal(p) ==> NormPath(p) == p
    ensures NormPath(NormPath(p)) == NormPath(p)
  {
  }

  lemma NameOfSplitPoint(s: string, n: string)
    requires IsName(n)
    ensures NameOf(s + "/" + n) == n
  {
    SplitAppend(s, n, '/');
  }

  predicate AllSlashes(s: string) {
    forall i :: 0 <= i < |s| ==> s[i] == '/'
  }

  /** What each helper makes of a path told apart into a core that does not end in
      a separator, and trailing separators. Every path is of that form. */
  lemma PathForms(core: string, slashes: string, n: string)
    requires AllSlashes(slashes) && (core != "" ==> core[|core| - 1] != '/') && IsName(n)
    ensures NormPath(core + slashes) == if core == "" then "/" else if core[0] == '/' then core else "/" + core
    ensures NormaliseRoot(core + slashes) == if core == "" then "/" else core
    ensures JoinPath(core + slashes, n) == core + "/" + n
    ensures ParentPath(core + "/" + n + slashes) == if core == "" then "/" else core
  {
    NormForm(core, slashes);
    RootForm(core, slashes, n);
    ParentForm(core, slashes, n);
  }

  lemma RootForm(core: string, slashes: string, n: string)
    requires AllSlashes(slashes) && (core != "" ==> core[|core| - 1] != '/')
    ensures NormaliseRoot(core + slashes) == if core == "" then "/" else core
    ensures JoinPath(core + slashes, n) == core + "/" + n
  {
    TrimmedForm(core, slashes);
    hide RightSlashTrimmed, AllSlashes;
    assert "" + "/" + n == "/" + n;
    assert core == "" && slashes == "" ==> core + slashes == "";
  }

  lemma ParentForm(core: string, slashes: string, n: string)
    requires AllSlashes(slashes) && IsName(n)
    ensures ParentPath(core + "/" + n + slashes) == if core == "" then "/" else core
  {
    var p := core + "/" + n;
    assert p[|p| - 1] == n[|n| - 1];
    TrimmedForm(p, slashes);
    LastSlash(core, n);
    hide RightSlashTrimmed, AllSlashes, LastIndex, IsName;
    assert p[..|core|] == core;
  }

  lemma NormForm(core: string, slashes: string)
    requires AllSlashes(slashes) && (core != "" ==> core[|core| - 1] != '/')
    ensures NormPath(core + slashes) == if core == "" then "/" else if core[0] == '/' then core else "/" + core
  {
    var path := core + slashes;
    if core != "" && core[0] == '/' {
      TrimSlashes(core, slashes);
    } else if core != "" {
      assert "/" + path == ("/" + core) + slashes;
      TrimSlashes("/" + core, slashes);
    } else if slashes != "" {
      assert path == slashes;
      TrimSlashes("", slashes);
    } else {
      TrimSlashes("", "/");
      assert "" + "/" == "/" + path;
    }
  }

  lemma {:induction false} TrimSlashes(core: string, slashes: string)
    requires AllSlashes(slashes) && (core != "" ==> core[|core| - 1] != '/')
    ensures TrimRight(core + slashes, '/') == core
    decreases |slashes|
  {
    if slashes == "" {
      assert core + slashes == core;
    } else {
      assert (core + slashes)[..|core + slashes| - 1] == core + slashes[..|slashes| - 1];
      TrimSlashes(core, slashes[..|slashes| - 1]);
    }
  }

  lemma {:induction false} TrimmedForm(core: string, slashes: string)
    requires AllSlashes(slashes) && (core != "" ==> core[|core| - 1] != '/')
    ensures RightSlashTrimmed(core + slashes) == if core == "" && slashes != "" then "/" else core
    decreases |slashes|
  {
    if slashes == "" {
      assert core + slashes == core;
    } else {
      assert (core + slashes)[..|core + slashes| - 1] == core + slashes[..|slashes| - 1];
      if |core + slashes| > 1 {
        TrimmedForm(core, slashes[..|slashes| - 1]);
      } else {
        assert core + slashes == "/";
      }
    }
  }

  /** The name of a path: its last piece that is not empty, whatever separators
      follow; separators alone have none. */
  lemma {:induction false} NameForms(folder: string, n: string, slashes: string)
    requires IsName(n) && AllSlashes(slashes)
    ensures NameOf(n + slashes) == n && NameOf(folder + "/" + n + slashes) == n && NameOf(slashes) == ""
    decreases |slashes|
  {
    if slashes == "" {
      assert n + slashes == n && folder + "/" + n + slashes == folder + "/" + n;
      NameOfSplitPoint(folder, n);
      OnePiece(n);
      OnePiece("");
    } else {
      var fewer := slashes[..|slashes| - 1];
      assert slashes == fewer + "/" + "";
      NameForms(folder, n, fewer);
      assert n + slashes == (n + fewer) + "/" + "";
      assert folder + "/" + n + slashes == (folder + "/" + n + fewer) + "/" + "";
      NameBeforeSlash(fewer);
      NameBeforeSlash(n + fewer);
      NameBeforeSlash(folder + "/" + n + fewer);
    }
  }

  lemma NameBeforeSlash(s: string)
    ensures NameOf(s + "/" + "") == NameOf(s)
  {
    SplitAppend(s, "", '/');
    hide Split;
    var pieces := Split(s, "/");
    assert (pieces + [""])[..|pieces|] == pieces;
  }

  /** The last separator of `d + "/" + n` is the one that was put there. */
  lemma LastSlash(d: string, n: string)
    requires '/' !in n
    ensures LastIndex(d + "/" + n, "/") == |d|
  {
    var s := d + "/" + n;
    OccursOne(s, '/');
    assert s[|d|] == '/';
    forall j | |d| < j < |s|
      ensures s[j] != '/'
    {
      assert s[j] == n[j - |d| - 1];
    }
  }

  /** What Glob's non-recursive filter rests on, for every directory string and
      every name. */
  lemma ParentOfJoin(d: string, n: string)
    requires IsName(n)
    ensures ParentPath(JoinPath(d, n)) == NormaliseRoot(d)
    ensures NameOf(JoinPath(d, n)) == n
    ensures "/" <= d ==> "/" <= JoinPath(d, n)
  {
    hide NameOf;
    var h := if NormaliseRoot(d) == "/" then "" else NormaliseRoot(d);
    NameOfSplitPoint(h, n);
    LastSlash(h, n);
    JoinedIsTrimmed(h, n);
  }

  lemma JoinedIsTrimmed(h: string, n: string)
    requires IsName(n)
    ensures RightSlashTrimmed(h + "/" + n) == h + "/" + n
  {
    assert (h + "/" + n)[|h + "/" + n| - 1] == n[|n| - 1];
  }

  /** A child's path is strictly longer than its directory's. */
  lemma JoinGrows(d: string, n: string)
    requires IsName(n)
    ensures NormaliseRoot(JoinPath(d, n)) == JoinPath(d, n)
    ensures |JoinPath(d, n)| > |NormaliseRoot(d)|
  {
    var p := JoinPath(d, n);
    assert p[|p| - 1] == n[|n| - 1];
  }

  /** Making a root absolute leaves what Glob compares with alone exactly when it
      was absolute already, or empty. */
  lemma AbsoluteRoot(root: string)
    ensures NormaliseRoot(NormPath(root)) == NormaliseRoot(root) <==> root == "" || root[0] == '/'
  {
    if root != "" && root[0] == '/' {
      TrimsAlike(root);
    }
  }

  lemma {:induction false} TrimsAlike(s: string)
    requires s != "" && s[0] == '/'
    ensures RightSlashTrimmed(s) == if TrimRight(s, '/') == "" then "/" else TrimRight(s, '/')
    decreases |s|
  {
    if |s| > 1 && s[|s| - 1] == '/' {
      TrimsAlike(s[..|s| - 1]);
    }
  }

  /** Components and PathOf are inverse on normal paths. */
  lemma PathOfComponents(p: string)
    requires Normal(p)
    ensures PathOf(Components(p)) == p
    ensures p != "/" ==> Components(p) != []
  {
    if p != "/" {
      JoinSplit(p[1..], "/");
      assert p == "/" + p[1..];
    }
  }

  lemma ComponentsOfPath(comps: seq<string>)
    requires forall k :: 0 <= k < |comps| ==> IsName(comps[k])
    ensures Normal(PathOf(comps))
    ensures Components(PathOf(comps)) == comps
  {
    if comps != [] {
      JoinEnd(comps);
      SplitJoin(comps, '/');
      assert PathOf(comps)[1..] == Join(comps, "/");
      assert |PathOf(comps)| > 1;
    }
  }

  lemma {:induction false} JoinEnd(comps: seq<string>)
    requires comps != []
    requires comps[|comps| - 1] != ""
    ensures var j := Join(comps, "/");
      |j| >= 1 && j[|j| - 1] == comps[|comps| - 1][|comps[|comps| - 1]| - 1]
    decreases |comps|
  {
    if |comps| > 1 {
      JoinEnd(comps[1..]);
    }
  }

  /** Two normal paths with the same components are the same path. */
  lemma ComponentsInjective(p: string, q: string)
    requires Normal(p) && Normal(q) && Components(p) == Components(q)
    ensures p == q
  {
    hide Components;
    PathOfComponents(p);
    PathOfComponents(q);
  }

  /** No segment of the path is empty, as in a path without "//". */
  predicate Clean(comps: seq<string>) {
    forall k :: 0 <= k < |comps| ==> comps[k] != ""
  }

  /** splitParent cuts a path at its last separator. */
  lemma SplitParentPieces(p: string)
    requires Normal(p) && p != "/"
    ensures var (parent, name) := SplitParent(p);
      && IsName(name) && "/" <= parent
      && Components(p) == (if p == "/" + name then [] else Split(parent[1..], "/")) + [name]
  {
    NormPathFixes(p);
    LastCut(p);
    hide LastIndex, NormPath;
    var i := LastIndex(p, "/");
    if i == 0 {
      OnePiece(p[1..]);
      assert p == "/" + p[1..];
    } else {
      SplitAt(p, i);
      hide Split;
      assert p[..i] != "" && p != "/" + p[i + 1..];
    }
  }

  lemma LastCut(p: string)
    requires "/" <= p
    ensures var i := LastIndex(p, "/"); 0 <= i < |p| && p[i] == '/' && '/' !in p[i + 1..]
  {
    OccursOne(p, '/');
    assert p[0] == '/';
  }

  lemma OnePiece(n: string)
    requires '/' !in n
    ensures Split(n, "/") == [n]
  {
    OccursOne(n, '/');
  }

  /** Splitting undoes joining for every normal folder and every name. */
  lemma SplitJoined(dir: string, n: string)
    requires Normal(dir) && IsName(n)
    ensures SplitParent(ChildPath(dir, n)) == (dir, n)
  {
    hide LastIndex, NormPath;
    var h := if dir == "/" then "" else dir;
    var c := h + "/" + n;
    assert c[|c| - 1] == n[|n| - 1];
    assert Normal(c) && c != "/";
    NormPathFixes(c);
    LastSlash(h, n);
    assert c[..|h|] == h && c[|h| + 1..] == n;
  }

  /** Joining undoes splitting exactly when the path is not a lone name behind
      two separators: "//a" splits into "/" and "a", which join to "/a". */
  lemma JoinSplitParent(p: string)
    requires Normal(p) && p != "/"
    ensures ChildPath(SplitParent(p).0, SplitParent(p).1) == p <==> !("//" <= p && '/' !in p[2..])
  {
    NormPathFixes(p);
    hide NormPath;
    var i := LastIndex(p, "/");
    OccursOne(p, '/');
    assert p[0] == '/';
    assert '/' !in p[i + 1..];
    hide LastIndex;
    assert p == p[..i] + "/" + p[i + 1..];
    if i == 0 {
      assert p[1] in p[1..];
    } else if i == 1 {
      assert "//" <= p by { assert p[..2] == "//"; }
      assert |ChildPath("/", p[2..])| == |p| - 1;
    } else {
      assert "//" <= p ==> p[2..][i - 2] == '/';
    }
  }

  lemma SplitAt(p: string, i: nat)
    requires 0 < i < |p| && p[i] == '/' && '/' !in p[i + 1..]
    ensures Split(p[1..], "/") == Split(p[..i][1..], "/") + [p[i + 1..]]
  {
    assert p[1..] == p[..i][1..] + [p[i]] + p[i + 1..];
    SplitAppend(p[..i][1..], p[i + 1..], '/');
  }

  /** One leading empty component is the root itself, as in "//a". */
  function DropLead(comps: seq<string>): (r: seq<string>)
    ensures |r| <= |comps|
  {
    if comps != [] && comps[0] == "" then comps[1..] else comps
  }

  /** The entry names a path leads through from the root. */
  function Segments(p: string): seq<string>
    requires Normal(p)
  {
    DropLead(Components(p))
  }

  /** Below a parent path the segments grow by the name, unless one of them is
      empty. */
  lemma SplitParentSegments(p: string)
    requires Normal(p) && p != "/" && Clean(Segments(p))
    ensures var (parent, name) := SplitParent(p);
      && Normal(parent) && NormPath(parent) == parent
      && Segments(p) == Segments(parent) + [name]
  {
    hide Split, LastIndex;
    var (parent, name) := SplitParent(p);
    SplitParentPieces(p);
    if p == "/" + name {
      OneSegment(name);
    } else {
      DropLeadSnoc(Split(parent[1..], "/"), name);
      CleanParent(parent[1..]);
    }
    NormPathFixes(parent);
  }

  lemma OneSegment(name: string)
    requires IsName(name)
    ensures SplitParent("/" + name).0 == "/" && Segments("/" + name) == [name] && Segments("/") == []
  {
    var p := "/" + name;
    assert p[|p| - 1] == name[|name| - 1];
    NormPathFixes(p);
    LastSlash("", name);
    SplitJoin([name], '/');
    assert p == "" + "/" + name && p[1..] == name;
  }

  lemma DropLeadSnoc(pieces: seq<string>, name: string)
    requires pieces != []
    ensures DropLead(pieces + [name]) == DropLead(pieces) + [name]
    ensures Clean(DropLead(pieces + [name])) ==> Clean(DropLead(pieces))
  {
    if Clean(DropLead(pieces) + [name]) {
      forall k | 0 <= k < |DropLead(pieces)|
        ensures DropLead(pieces)[k] != ""
      {
        assert (DropLead(pieces) + [name])[k] == DropLead(pieces)[k];
      }
    }
  }

  /** A trailing separator leaves an empty last piece. */
  lemma TrailingSlashUnclean(s: string)
    requires s != "" && s[|s| - 1] == '/'
    ensures !Clean(DropLead(Split(s, "/")))
  {
    hide Split, DropLead, Clean;
    var init := s[..|s| - 1];
    EndsInSlash(s);
    SplitAppend(init, "", '/');
    EmptyEndUnclean(Split(init, "/"));
  }

  lemma EndsInSlash(s: string)
    requires s != "" && s[|s| - 1] == '/'
    ensures s == s[..|s| - 1] + ['/'] + ""
  {
  }

  lemma EmptyEndUnclean(pieces: seq<string>)
    requires pieces != []
    ensures !Clean(DropLead(pieces + [""]))
  {
    DropLeadSnoc(pieces, "");
    hide DropLead;
    var d := DropLead(pieces);
    assert (d + [""])[|d|] == "";
  }

  lemma CleanParent(s: string)
    requires Clean(DropLead(Split(s, "/")))
    ensures Normal("/" + s)
    ensures Segments("/" + s) == DropLead(Split(s, "/"))
  {
    var pieces := Split(s, "/");
    if s != "" && s[|s| - 1] == '/' {
      TrailingSlashUnclean(s);
      assert false;
    }
    assert ("/" + s)[1..] == s;
    if s == "" {
      assert pieces == [""];
    } else {
      assert ("/" + s)[|s|] == s[|s| - 1];
    }
  }

  /** A child of a normal path is normal and adds its name to the segments. */
  lemma ChildSegments(p: string, n: string)
    requires Normal(p) && IsName(n)
    ensures var c := ChildPath(p, n);
      Normal(c) && c != "/" && Segments(c) == Segments(p) + [n]
  {
    if p == "/" {
      ChildOfRoot(n);
    } else {
      ChildOfFolder(p, n);
    }
  }

  lemma ChildOfRoot(n: string)
    requires IsName(n)
    ensures var c := "/" + n; Normal(c) && c != "/" && c[1..] == n && Segments("/") == [] && Segments(c) == [n]
  {
    OnePiece(n);
    hide Split;
    var c := "/" + n;
    assert c[1..] == n && c[|c| - 1] == n[|n| - 1];
  }

  lemma ChildOfFolder(p: string, n: string)
    requires Normal(p) && p != "/" && IsName(n)
    ensures var c := p + "/" + n; Normal(c) && c != "/" && Segments(c) == Segments(p) + [n]
  {
    hide Split;
    SplitAppend(p[1..], n, '/');
    var c := p + "/" + n;
    assert c[1..] == p[1..] + "/" + n && c[|c| - 1] == n[|n| - 1];
    DropLeadSnoc(Split(p[1..], "/"), n);
    hide DropLead;
  }
}

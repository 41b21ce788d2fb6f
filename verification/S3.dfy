/** The S3 driver: a filesystem synthesised over a flat key/value store. */
module S3 {
  import opened GoStrings
  import opened Octets
  import opened Options
  import opened Paths

  type Bucket = map<string, Bytes>

  datatype Error = NotConnected | NotFound | NotEmpty | Remote
  datatype Result<+T> = Ok(value: T) | Err(error: Error)

  datatype FileInfo = FileInfo(name: string, path: string, size: nat, isDir: bool)

  /** One event of a listing: an object, or (no body) a common prefix. */
  datatype Entry = Entry(key: string, body: Option<Bytes>)

  // ------------------------------------------------------------ the bucket

  predicate HasUnder(b: Bucket, prefix: string) {
    exists k <- b :: prefix <= k
  }

  function Under(b: Bucket, prefix: string): set<string> {
    set k <- b | prefix <= k
  }

  /** How a key shows in a listing: with a delimiter, everything after the next
      separator is folded into a common prefix. */
  function Shown(b: Bucket, prefix: string, delimited: bool, k: string): Entry
    requires k in b && prefix <= k
  {
    var i := Index(k[|prefix|..], "/");
    if delimited && i >= 0 then Entry(k[..|prefix| + i + 1], None) else Entry(k, Some(b[k]))
  }

  /** A complete listing: every key shown, nothing else, nothing twice, and an
      object "a" ahead of a common prefix "a/", as sorted order has it. */
  ghost predicate IsListing(b: Bucket, prefix: string, delimited: bool, es: seq<Entry>) {
    && (forall i, j :: 0 <= i < j < |es| ==> es[i].key != es[j].key)
    && (forall e :: e in es ==> exists k :: k in b && prefix <= k && e == Shown(b, prefix, delimited, k))
    && (forall k :: k in b && prefix <= k ==> Shown(b, prefix, delimited, k) in es)
    && (delimited ==> forall i, j :: 0 <= i < j < |es| ==> es[i].key != es[j].key + "/")
  }

  /** The object store as the client library presents it. Any call may fail; a
      failed write may or may not have taken effect. Every state the bucket
      passes through is kept in `history`. A `reliable` client never fails. */
  class Client {
    const reliable: bool
    var objects: Bucket
    ghost var history: seq<Bucket>

    constructor (reliable: bool, objects: Bucket)
      ensures this.reliable == reliable && this.objects == objects && history == []
    {
      this.reliable, this.objects, history := reliable, objects, [];
    }

    method StatObject(key: string) returns (found: Option<Bytes>)
      ensures found.Some? ==> key in objects && found.value == objects[key]
      ensures reliable && key in objects ==> found.Some?
    {
      var fault: bool := *;
      found := if key in objects && (reliable || !fault) then Some(objects[key]) else None;
    }

    method PutObject(key: string, body: Bytes) returns (ok: bool)
      modifies this
      ensures ok ==> objects == old(objects)[key := body]
      ensures objects == old(objects) || objects == old(objects)[key := body]
      ensures history == old(history) + [objects]
      ensures reliable ==> ok
    {
      var applied, replied := Outcome();
      if applied {
        objects := objects[key := body];
      }
      history := history + [objects];
      ok := applied && replied;
    }

    method CopyObject(dst: string, src: string) returns (ok: bool)
      modifies this
      ensures ok ==> src in old(objects) && objects == old(objects)[dst := old(objects)[src]]
      ensures objects == old(objects) || (src in old(objects) && objects == old(objects)[dst := old(objects)[src]])
      ensures history == old(history) + [objects]
      ensures reliable && src in old(objects) ==> ok
    {
      var applied, replied := Outcome();
      if applied && src in objects {
        objects := objects[dst := objects[src]];
      } else {
        applied := false;
      }
      history := history + [objects];
      ok := applied && replied;
    }

    method RemoveObject(key: string) returns (ok: bool)
      modifies this
      ensures ok ==> objects == old(objects) - {key}
      ensures objects == old(objects) || objects == old(objects) - {key}
      ensures history == old(history) + [objects]
      ensures reliable ==> ok
    {
      var applied, replied := Outcome();
      if applied {
        objects := objects - {key};
      }
      history := history + [objects];
      ok := applied && replied;
    }

    method Outcome() returns (applied: bool, replied: bool)
      ensures reliable ==> applied && replied
    {
      applied, replied := *, *;
      if reliable {
        applied, replied := true, true;
      }
    }

    /** The events up to the first error, if there is one. */
    method ListObjects(prefix: string, delimited: bool) returns (es: seq<Entry>, failed: bool)
      ensures exists all :: IsListing(objects, prefix, delimited, all) && es <= all && (!failed ==> es == all)
      ensures reliable ==> !failed
    {
      ghost var b := objects;
      var files: seq<Entry>, dirs: seq<Entry> := [], [];
      var todo := Under(objects, prefix);
      while todo != {}
        invariant Folded(b, prefix, delimited, files, dirs, todo)
      {
        var k :| k in todo;
        FoldOne(b, prefix, delimited, files, dirs, todo, k);
        hide Folded, Shown;
        todo := todo - {k};
        var e := Shown(objects, prefix, delimited, k);
        if e.body.Some? {
          files := files + [e];
        } else if e !in dirs {
          dirs := dirs + [e];
        }
      }
      es := files + dirs;
      ListingAssembled(b, prefix, delimited, files, dirs);
      var fault: bool, n: int := *, *;
      failed := !reliable && fault;
      if failed {
        es := es[..if 0 <= n <= |es| then n else 0];
      }
    }
  }

  /** A listing in the making: the keys not in `todo` show, objects apart from
      common prefixes. */
  ghost predicate Folded(b: Bucket, prefix: string, delimited: bool, files: seq<Entry>, dirs: seq<Entry>, todo: set<string>) {
    && todo <= Under(b, prefix)
    && (forall e :: e in files || e in dirs ==> exists k :: k in b && prefix <= k && e == Shown(b, prefix, delimited, k))
    && (forall k :: k in b && prefix <= k && k !in todo ==>
          Shown(b, prefix, delimited, k) in files || Shown(b, prefix, delimited, k) in dirs)
    && (forall e :: e in files ==> e.body.Some? && e.key !in todo)
    && (forall e :: e in dirs ==> e.body.None?)
    && (forall i, j :: 0 <= i < j < |files| ==> files[i].key != files[j].key)
    && (forall i, j :: 0 <= i < j < |dirs| ==> dirs[i].key != dirs[j].key)
  }

  lemma FoldOne(b: Bucket, prefix: string, delimited: bool, files: seq<Entry>, dirs: seq<Entry>, todo: set<string>, k: string)
    requires Folded(b, prefix, delimited, files, dirs, todo) && k in todo
    ensures var e := Shown(b, prefix, delimited, k);
      && (e.body.Some? ==> Folded(b, prefix, delimited, files + [e], dirs, todo - {k}))
      && (e.body.None? && e in dirs ==> Folded(b, prefix, delimited, files, dirs, todo - {k}))
      && (e.body.None? && e !in dirs ==> Folded(b, prefix, delimited, files, dirs + [e], todo - {k}))
  {
    var e := Shown(b, prefix, delimited, k);
    var at := ShownShape(b, prefix, delimited, k);
    hide Shown;
    assert forall i :: 0 <= i < |files| ==> files[i] in files;
    assert forall i :: 0 <= i < |dirs| ==> dirs[i] in dirs;
    if e.body.None? && e !in dirs {
      DirsApart(b, prefix, delimited, dirs, e);
    }
  }

  /** A common prefix that is not among the others has a key of its own. */
  lemma DirsApart(b: Bucket, prefix: string, delimited: bool, dirs: seq<Entry>, e: Entry)
    requires e.body.None? && e !in dirs && forall d :: d in dirs ==> d.body.None?
    ensures forall i :: 0 <= i < |dirs| ==> dirs[i].key != e.key
  {
    forall i | 0 <= i < |dirs|
      ensures dirs[i].key != e.key
    {
      assert dirs[i] in dirs;
      assert dirs[i] != e;
    }
  }

  /** With a delimiter, what is shown past the prefix is one segment `n`:
      an object's own, or a common prefix's before its separator. */
  lemma ShownShape(b: Bucket, prefix: string, delimited: bool, k: string) returns (n: string)
    requires k in b && prefix <= k
    ensures var e := Shown(b, prefix, delimited, k);
      && prefix <= e.key <= k
      && (e.body.Some? ==> e == Entry(k, Some(b[k])))
      && (e.body.Some? && delimited ==> e.key == prefix + n)
      && (e.body.None? ==> delimited && e.key == prefix + n + "/")
    ensures '/' !in n
  {
    var rel := k[|prefix|..];
    OccursOne(rel, '/');
    var i := Index(rel, "/");
    if i < 0 {
      n := rel;
    } else {
      n := rel[..i];
      CutAt(prefix, k, i);
    }
  }

  lemma CutAt(prefix: string, k: string, i: nat)
    requires prefix <= k && |prefix| + i < |k| && k[|prefix| + i] == '/'
    ensures k[..|prefix| + i + 1] == prefix + k[|prefix|..][..i] + "/"
  {
  }

  lemma ListingAssembled(b: Bucket, prefix: string, delimited: bool, files: seq<Entry>, dirs: seq<Entry>)
    requires forall e :: e in files + dirs ==> exists k :: k in b && prefix <= k && e == Shown(b, prefix, delimited, k)
    requires forall k :: k in b && prefix <= k ==> Shown(b, prefix, delimited, k) in files + dirs
    requires forall e :: e in files ==> e.body.Some?
    requires forall e :: e in dirs ==> e.body.None?
    requires forall i, j :: 0 <= i < j < |files| ==> files[i].key != files[j].key
    requires forall i, j :: 0 <= i < j < |dirs| ==> dirs[i].key != dirs[j].key
    ensures IsListing(b, prefix, delimited, files + dirs)
  {
    var es := files + dirs;
    forall i, j | 0 <= i < j < |es|
      ensures es[i].key != es[j].key
      ensures delimited ==> es[i].key != es[j].key + "/"
    {
      assert es[i] in es && es[j] in es;
      var k :| k in b && prefix <= k && es[i] == Shown(b, prefix, delimited, k);
      var l :| l in b && prefix <= l && es[j] == Shown(b, prefix, delimited, l);
      var m := ShownShape(b, prefix, delimited, k);
      var n := ShownShape(b, prefix, delimited, l);
      SegmentsApart(prefix, m, n);
    }
  }

  /** A segment never ends in the separator that closes a common prefix. */
  lemma SegmentsApart(p: string, m: string, n: string)
    requires '/' !in m && '/' !in n
    ensures p + m != p + n + "/"
    ensures p + m + "/" != p + n + "/" + "/"
    ensures p + m != p + n + "/" + "/"
    ensures p + m == p + n <==> m == n
  {
    assert (p + n + "/")[|p + n|] == '/';
    assert (p + n + "/" + "/")[|p + n|] == '/';
    assert forall i :: 0 <= i < |m| ==> (p + m)[|p| + i] == m[i] && (p + m + "/")[|p| + i] == m[i];
    if p + m == p + n {
      assert m == (p + m)[|p|..] && n == (p + n)[|p|..];
    }
  }

  // ------------------------------------------------- what the driver answers

  /** A path's object key under the mount's prefix. */
  function ToKey(prefix: string, path: string): string {
    prefix + TrimPrefix(path, "/")
  }

  function NormalizePrefix(prefix: string): (r: string)
    ensures r == "" || (r[0] != '/' && HasSuffix(r, "/") && (|r| > 1 ==> r[|r| - 2] != '/'))
  {
    var t := TrimRight(TrimLeft(prefix, '/'), '/');
    if t == "" then "" else t + "/"
  }

  /** Every prefix as it may be given: separators, a core that neither starts nor
      ends in one, and separators. */
  lemma PrefixAsGiven(prefix: string) returns (before: string, core: string, after: string)
    ensures prefix == before + core + after && IsCore(core) && AllSlashes(before) && AllSlashes(after)
  {
    hide AllSlashes;
    var left;
    before, left := SlashesBefore(prefix);
    core, after := SlashesAfter(left);
    assert before + (core + after) == before + core + after;
  }

  lemma SlashesBefore(s: string) returns (before: string, left: string)
    ensures s == before + left && AllSlashes(before) && (left == "" || left[0] != '/')
  {
    left := TrimLeft(s, '/');
    hide TrimLeft;
    before := s[..|s| - |left|];
  }

  lemma SlashesAfter(s: string) returns (core: string, after: string)
    ensures s == core + after && AllSlashes(after) && (core == "" || (core[|core| - 1] != '/' && core[0] == s[0]))
  {
    core := TrimRight(s, '/');
    hide TrimRight;
    after := s[|core|..];
  }

  predicate IsCore(core: string) {
    core != "" ==> core[0] != '/' && core[|core| - 1] != '/'
  }

  /** What the mount's prefix comes to: nothing if there is no core, and otherwise
      the core and one separator, under which every path's key then lies. */
  lemma MountPrefix(before: string, core: string, after: string, key: string)
    requires IsCore(core) && AllSlashes(before) && AllSlashes(after)
    ensures NormalizePrefix(before + core + after) == if core == "" then "" else core + "/"
    ensures ToKey(NormalizePrefix(before + core + after), "/" + key) == if core == "" then key else core + "/" + key
  {
    hide AllSlashes, IsCore;
    TrimLeftCore(before, core, after);
    TrimRightCore(core, after);
    NothingToTrim();
    hide TrimLeft, TrimRight;
    TrimPrefixOf("/", key);
    hide TrimPrefix;
    Regroup(core, "/", key);
  }

  lemma NothingToTrim()
    ensures TrimRight("", '/') == "" && TrimLeft("", '/') == ""
  {
  }

  lemma {:induction false} TrimSlashes(before: string, s: string)
    requires AllSlashes(before)
    ensures TrimLeft(before + s, '/') == TrimLeft(s, '/')
    decreases |before|
  {
    if before == "" {
      assert before + s == s;
    } else {
      assert (before + s)[0] == '/' && (before + s)[1..] == before[1..] + s;
      TrimSlashes(before[1..], s);
    }
  }

  lemma TrimLeftCore(before: string, core: string, after: string)
    requires IsCore(core) && AllSlashes(before) && AllSlashes(after)
    ensures TrimLeft(before + core + after, '/') == if core == "" then "" else core + after
  {
    hide TrimLeft, AllSlashes;
    Regroup(before, core, after);
    TrimSlashes(before, core + after);
    if core == "" {
      Regroup("", after, "");
      TrimSlashes(after, "");
      NothingToTrim();
    } else {
      NoSlashAhead(core + after);
    }
  }

  lemma Regroup(a: string, b: string, c: string)
    ensures a + b + c == a + (b + c)
    ensures "" + c == c && c + "" == c && "" + b + "" == b && b + "" == b
  {
  }

  lemma NoSlashAhead(s: string)
    requires s != "" && s[0] != '/'
    ensures TrimLeft(s, '/') == s
  {
  }

  lemma {:induction false} TrimRightCore(core: string, after: string)
    requires IsCore(core) && AllSlashes(after)
    ensures TrimRight(core + after, '/') == core
    decreases |after|
  {
    if after != "" {
      var n := |after| - 1;
      assert (core + after)[..|core + after| - 1] == core + after[..n];
      TrimRightCore(core, after[..n]);
    } else {
      assert core + after == core;
    }
  }

  /** The key prefix that a directory's entries share. */
  function DirKey(prefix: string, p: string): string {
    var k := ToKey(prefix, p);
    if k != "" && !HasSuffix(k, "/") then k + "/" else k
  }

  /** What Stat reports of a bucket whose calls do not fail. */
  function StatOf(b: Bucket, prefix: string, path: string): Option<FileInfo> {
    var p := NormPath(path);
    var key := ToKey(prefix, p);
    if p == "/" then Some(FileInfo("", "/", 0, true))
    else if key in b then Some(FileInfo(NameOf(p), p, |b[key]|, false))
    else if HasUnder(b, key + "/") then Some(FileInfo(NameOf(p), p, 0, true))
    else None
  }

  /** The directory with key prefix `dk` has an entry called `n`: an object of
      that name, or anything below it. */
  predicate HasEntry(b: Bucket, dk: string, n: string) {
    IsName(n) && (dk + n in b || HasUnder(b, dk + n + "/"))
  }

  function EntryInfo(b: Bucket, dk: string, dir: string, n: string): FileInfo {
    FileInfo(n, dir + "/" + n, if dk + n in b then |b[dk + n]| else 0, dk + n !in b)
  }

  /** A directory's listing: each entry once, nothing else, objects as files and
      the rest as directories. */
  ghost predicate IsDirListing(b: Bucket, dk: string, dir: string, out: seq<FileInfo>) {
    && (forall i :: 0 <= i < |out| ==> HasEntry(b, dk, out[i].name) && out[i] == EntryInfo(b, dk, dir, out[i].name))
    && (forall i, j :: 0 <= i < j < |out| ==> out[i].name != out[j].name)
    && (forall n :: HasEntry(b, dk, n) ==> exists i :: 0 <= i < |out| && out[i].name == n)
  }

  /** `k`'s counterpart when the prefix `src` is swapped for `dst`. */
  function Swap(src: string, dst: string, k: string): string {
    dst + TrimPrefix(k, src)
  }

  predicate Disjoint(src: string, dst: string) {
    !(src <= dst) && !(dst <= src)
  }

  /** The bucket after a finished directory rename: every key under `src` sits
      under `dst` with its suffix and bytes, all other keys are as before. */
  function Moved(b: Bucket, src: string, dst: string): Bucket {
    map k | k in (b.Keys - Under(b, src)) + (set s <- Under(b, src) :: Swap(src, dst, s))
      :: if dst <= k && src + k[|dst|..] in b then b[src + k[|dst|..]] else b[k]
  }

  predicate Keeps(b: Bucket, st: Bucket, k: string, at: string)
    requires k in b
  {
    at in st && st[at] == b[k]
  }

  predicate SameAt(b: Bucket, st: Bucket, k: string) {
    (k in st <==> k in b) && (k in b ==> st[k] == b[k])
  }

  /** What holds of every state a rename of `b` passes through: each object is
      at its source or its destination; if any source key is gone, every copy is
      in place; keys that are neither source nor destination are as in `b`. */
  ghost predicate Safe(b: Bucket, st: Bucket, src: string, dst: string) {
    && (forall k :: k in b && src <= k ==> Keeps(b, st, k, k) || Keeps(b, st, k, Swap(src, dst, k)))
    && ((exists k :: k in b && src <= k && k !in st)
        ==> forall k :: k in b && src <= k ==> Keeps(b, st, k, Swap(src, dst, k)))
    && (forall k :: !(src <= k) && !(dst <= k && src + k[|dst|..] in b) ==> SameAt(b, st, k))
    && (forall k :: k in st && src <= k ==> k in b)
  }

  /** Every state from position `from` of a history on is safe. */
  ghost predicate AllSafe(b: Bucket, hs: seq<Bucket>, from: nat, src: string, dst: string) {
    forall i :: from <= i < |hs| ==> Safe(b, hs[i], src, dst)
  }

  lemma AllSafeJoin(b: Bucket, h0: seq<Bucket>, h1: seq<Bucket>, h2: seq<Bucket>, src: string, dst: string)
    requires h0 <= h1 <= h2
    ensures AllSafe(b, h1, |h0|, src, dst) && AllSafe(b, h2, |h1|, src, dst) ==> AllSafe(b, h2[|h0|..], 0, src, dst)
  {
    var states := h2[|h0|..];
    forall i | 0 <= i < |states| && AllSafe(b, h1, |h0|, src, dst) && AllSafe(b, h2, |h1|, src, dst)
      ensures Safe(b, states[i], src, dst)
    {
      assert states[i] == h2[|h0| + i];
      if |h0| + i < |h1| {
        assert states[i] == h1[|h0| + i];
      }
    }
  }

  /** A file rename from `b`: every state passed through keeps the bytes at one
      of the two keys and all other keys; on success exactly the key changed. */
  ghost predicate FileRenamed(b: Bucket, states: seq<Bucket>, last: Bucket, src: string, dst: string, r: Result<()>) {
    && src in b
    && (src != dst ==> forall i :: 0 <= i < |states| ==> FileSafe(b, states[i], src, dst))
    && (r.Ok? ==> last == b[dst := b[src]] - {src})
  }

  /** A directory rename from `b`, for prefixes neither of which extends the
      other. */
  ghost predicate DirRenamed(b: Bucket, states: seq<Bucket>, last: Bucket, src: string, dst: string, r: Result<()>) {
    && (Disjoint(src, dst) ==> AllSafe(b, states, 0, src, dst))
    && (Disjoint(src, dst) && r.Ok? ==> HasUnder(b, src) && last == Moved(b, src, dst))
    && (r == Err(NotFound) ==> !HasUnder(b, src) && last == b)
  }

  class Driver {
    var connected: bool
    var client: Client?
    var prefix: string

    constructor (client: Client, prefix: string)
      ensures connected && this.client == client && this.prefix == NormalizePrefix(prefix)
    {
      hide NormalizePrefix;
      this.client, connected := client, true;
      this.prefix := NormalizePrefix(prefix);
    }

    /** `missed` says that there is an object under the path's key and looking
        it up failed. Every answer but an error is then the bucket's own exactly
        when nothing was missed. */
    method Stat(path: string) returns (r: Result<FileInfo>, ghost missed: bool)
      ensures !connected || client == null ==> r == Err(NotConnected)
      ensures connected && client != null && client.reliable ==>
        r == match StatOf(client.objects, prefix, path) case Some(info) => Ok(info) case None => Err(NotFound)
      ensures connected && client != null && NormPath(path) == "/" ==> r == Ok(FileInfo("", "/", 0, true))
      ensures missed ==> connected && client != null && !client.reliable
      ensures missed ==> NormPath(path) != "/" && ToKey(prefix, NormPath(path)) in client.objects
      ensures connected && client != null && r.Ok? ==> (StatOf(client.objects, prefix, path) == Some(r.value) <==> !missed)
      ensures connected && client != null && r == Err(NotFound) ==> (StatOf(client.objects, prefix, path).None? <==> !missed)
      ensures connected && client != null && r.Err? ==> r == Err(NotFound) || (r == Err(Remote) && !client.reliable)
    {
      missed := false;
      if !connected || client == null {
        return Err(NotConnected), false;
      }
      var p := NormPath(path);
      if p == "/" {
        return Ok(FileInfo("", "/", 0, true)), false;
      }
      var key := ToKey(prefix, p);
      var name := NameFromPath(p);
      var found := client.StatObject(key);
      if found.Some? {
        return Ok(FileInfo(name, p, |found.value|, false)), false;
      }
      missed := key in client.objects;
      var es, failed := client.ListObjects(key + "/", true);
      NonemptyListing(client.objects, key + "/", true, es, failed);
      if es != [] {
        return Ok(FileInfo(name, p, 0, true)), missed;
      }
      if failed {
        return Err(Remote), missed;
      }
      return Err(NotFound), missed;
    }

    method ListDir(path: string) returns (r: Result<seq<FileInfo>>)
      ensures !connected || client == null ==> r == Err(NotConnected)
      ensures connected && client != null && client.reliable ==> r.Ok?
      ensures connected && client != null && r.Ok? ==>
        IsDirListing(client.objects, DirKey(prefix, NormPath(path)), TrimRight(NormPath(path), '/'), r.value)
    {
      if !connected || client == null {
        return Err(NotConnected);
      }
      var p := NormPath(path);
      var dirPrefix := ToKey(prefix, p);
      if dirPrefix != "" && !HasSuffix(dirPrefix, "/") {
        dirPrefix := dirPrefix + "/";
      }
      var trimmed := TrimRight(p, '/');
      var seen: set<string> := {};
      var out: seq<FileInfo> := [];
      ghost var b := client.objects;
      var es, failed := client.ListObjects(dirPrefix, true);
      ghost var all :| IsListing(b, dirPrefix, true, all) && es <= all && (!failed ==> es == all);
      var i := 0;
      while i < |es|
        invariant 0 <= i <= |es|
        invariant Progress(b, dirPrefix, trimmed, all, i, out, seen)
      {
        var obj := es[i];
        EventInfo(b, dirPrefix, trimmed, all, i, out, seen);
        i := i + 1;
        var rel := TrimPrefix(obj.key, dirPrefix);
        if rel == "" {
          continue;
        }
        if HasSuffix(obj.key, "/") {
          var name := TrimSuffix(rel, "/");
          if name == "" || name in seen {
            continue;
          }
          seen := seen + {name};
          out := out + [FileInfo(name, trimmed + "/" + name, 0, true)];
        } else {
          if rel in seen {
            continue;
          }
          seen := seen + {rel};
          out := out + [FileInfo(rel, trimmed + "/" + rel, if obj.body.Some? then |obj.body.value| else 0, false)];
        }
      }
      if failed {
        return Err(Remote);
      }
      CollectedAll(b, dirPrefix, trimmed, all, out, seen);
      return Ok(out);
    }

    method Mkdir(path: string) returns (r: Result<()>)
      modifies client
      ensures unchanged(this)
      ensures !connected || client == null ==> r == Err(NotConnected) && (client != null ==> unchanged(client))
      ensures connected && client != null ==>
        var p := NormPath(path);
        var key := if HasSuffix(ToKey(prefix, p), "/") then ToKey(prefix, p) else ToKey(prefix, p) + "/";
        && (r.Ok? ==> client.objects == old(client.objects)[key := []])
        && (client.objects == old(client.objects) || client.objects == old(client.objects)[key := []])
        && (client.reliable ==> r.Ok?)
    {
      if !connected || client == null {
        return Err(NotConnected);
      }
      var key := ToKey(prefix, NormPath(path));
      if !HasSuffix(key, "/") {
        key := key + "/";
      }
      var ok := client.PutObject(key, []);
      return if ok then Ok(()) else Err(Remote);
    }

    /** `missed` says that there is an object under the path's key and looking
        it up failed; what is removed then is a directory's placeholder. After
        success the path is gone unless an object was missed, or shared the path
        with a directory, or the path is the root. */
    method Remove(path: string) returns (r: Result<()>, ghost missed: bool)
      modifies client
      ensures unchanged(this)
      ensures !connected || client == null ==> r == Err(NotConnected) && (client != null ==> unchanged(client))
      ensures missed ==> connected && client != null && !client.reliable && ToKey(prefix, NormPath(path)) in old(client.objects)
      ensures connected && client != null ==>
        var b, key := old(client.objects), ToKey(prefix, NormPath(path));
        && (client.reliable ==> r == RemoveResult(b, key, false))
        && (r.Ok? ==> RemoveResult(b, key, missed).Ok? && client.objects == Removed(b, key, missed))
        && (!r.Ok? ==> client.objects == b || client.objects == Removed(b, key, missed))
        && (r == Err(NotEmpty) ==> RemoveResult(b, key, missed) == r && client.objects == b)
      ensures connected && client != null ==>
        var b, key := old(client.objects), ToKey(prefix, NormPath(path));
        && (r.Ok? ==> client.objects == if key in b && !missed then b - {key} else b - {key + "/"})
        && (r.Ok? && (key !in b || missed) ==> forall k :: k in b && key + "/" <= k ==> k == key + "/")
        && (r == Err(NotEmpty) ==> (key !in b || missed) && exists k :: k in b && key + "/" <= k && k != key + "/")
        && (client.reliable ==> r == (if key !in b && (exists k :: k in b && key + "/" <= k && k != key + "/")
                                      then Err(NotEmpty) else Ok(())))
      ensures connected && client != null && r.Ok? ==>
        (StatOf(client.objects, prefix, path).None? <==> Goes(old(client.objects), prefix, path, missed))
    {
      if !connected || client == null {
        return Err(NotConnected), false;
      }
      var p := NormPath(path);
      var key := ToKey(prefix, p);
      ghost var before := client.objects;
      missed := false;
      var found := client.StatObject(key);
      if found.Some? {
        var ok := client.RemoveObject(key);
        RemovedIsGone(before, prefix, path, false);
        return if ok then Ok(()) else Err(Remote), false;
      }
      missed := key in before;
      var hasChildren, failed := Occupied(client, key);
      if hasChildren {
        return Err(NotEmpty), missed;
      }
      if failed {
        return Err(Remote), missed;
      }
      var dirPrefix := key + "/";
      var ok := client.RemoveObject(dirPrefix);
      RemovedIsGone(before, prefix, path, missed);
      return if ok then Ok(()) else Err(Remote), missed;
    }

    /** Remove's look for anything below a directory but its placeholder. */
    method Occupied(client: Client, key: string) returns (hasChildren: bool, failed: bool)
      ensures hasChildren ==> HasChild(client.objects, key)
      ensures !hasChildren && !failed ==> !HasChild(client.objects, key)
      ensures client.reliable ==> !failed
    {
      hide Shown, IsListing, HasChild;
      var dirPrefix := key + "/";
      var es;
      es, failed := client.ListObjects(dirPrefix, false);
      ghost var b := client.objects;
      Children(b, key, es, failed);
      var i := 0;
      hasChildren := false;
      while i < |es| && !hasChildren
        invariant 0 <= i <= |es|
        invariant hasChildren ==> HasChild(b, key)
        invariant !hasChildren ==> forall j :: 0 <= j < i ==> es[j].key == dirPrefix
      {
        if es[i].key != dirPrefix {
          hasChildren := true;
        }
        i := i + 1;
      }
    }

    /** `asFile` tells which branch ran: a file is copied and removed, anything
        else is treated as a directory. */
    method Rename(oldPath: string, newPath: string) returns (r: Result<()>, ghost asFile: bool)
      modifies client
      ensures unchanged(this)
      ensures !connected || client == null ==> r == Err(NotConnected) && (client != null ==> unchanged(client))
      ensures connected && client != null ==> old(client.history) <= client.history
      ensures connected && client != null ==>
        var b, src, dst := old(client.objects), ToKey(prefix, NormPath(oldPath)), ToKey(prefix, NormPath(newPath));
        var states := client.history[|old(client.history)|..];
        && (asFile ==> FileRenamed(b, states, client.objects, src, dst, r))
        && (!asFile ==> DirRenamed(b, states, client.objects, src + "/", dst + "/", r))
        && (client.reliable ==> (asFile <==> src in b) && (r.Ok? <==> src in b || HasUnder(b, src + "/")))
      ensures connected && client != null && r.Ok? && (asFile || ApartDirs(prefix, oldPath, newPath)) ==>
        (WentOver(old(client.objects), client.objects, prefix, oldPath, newPath)
         <==> GoesOver(old(client.objects), prefix, oldPath, newPath, asFile))
    {
      if !connected || client == null {
        return Err(NotConnected), false;
      }
      var srcKey := ToKey(prefix, NormPath(oldPath));
      var dstKey := ToKey(prefix, NormPath(newPath));
      ghost var b := client.objects;
      ghost var h := client.history;
      var found := client.StatObject(srcKey);
      asFile := found.Some?;
      if found.Some? {
        r := MoveFile(client, srcKey, dstKey);
        if r.Ok? {
          FileWentOver(b, prefix, oldPath, newPath);
        }
        return r, true;
      }

      var src, dst := srcKey + "/", dstKey + "/";
      var toDelete;
      r, toDelete := CopyAll(client, src, dst);
      AllSafeJoin(b, h, h, client.history, src, dst);
      if r.Err? {
        return r, false;
      }
      if |toDelete| == 0 {
        assert !HasUnder(b, src) by {
          assert Elems(toDelete) == {};
          assert forall k :: k in b && src <= k ==> k in Under(b, src);
        }
        return Err(NotFound), false;
      }
      assert HasUnder(b, src) by {
        assert toDelete[0] in Elems(toDelete);
      }
      ghost var h1 := client.history;
      r := DeleteAll(client, toDelete, b, src, dst);
      AllSafeJoin(b, h, h1, client.history, src, dst);
      if r.Ok? && Disjoint(src, dst) {
        DirWentOver(b, prefix, oldPath, newPath);
      }
      return r, false;
    }

    /** Rename of a file: copy, then remove. */
    method MoveFile(client: Client, src: string, dst: string) returns (r: Result<()>)
      requires src in client.objects
      modifies client
      ensures old(client.history) <= client.history
      ensures FileRenamed(old(client.objects), client.history[|old(client.history)|..], client.objects, src, dst, r)
      ensures client.reliable ==> r.Ok?
    {
      ghost var h := client.history;
      var ok := client.CopyObject(dst, src);
      assert client.history[|h|..] == [client.objects];
      if !ok {
        return Err(Remote);
      }
      ghost var copied := client.objects;
      ok := client.RemoveObject(src);
      assert client.history[|h|..] == [copied, client.objects];
      return if ok then Ok(()) else Err(Remote);
    }

    /** Rename's first phase: copy every key under `src`, in listing order. */
    method CopyAll(client: Client, src: string, dst: string) returns (r: Result<()>, toDelete: seq<string>)
      modifies client
      ensures old(client.history) <= client.history
      ensures Disjoint(src, dst) ==> AllSafe(old(client.objects), client.history, |old(client.history)|, src, dst)
      ensures Disjoint(src, dst) && r.Ok? ==> Copying(old(client.objects), client.objects, src, dst, Under(old(client.objects), src))
      ensures r.Ok? ==> Elems(toDelete) == Under(old(client.objects), src)
      ensures r.Ok? && toDelete == [] ==> client.objects == old(client.objects)
      ensures r != Err(NotFound)
      ensures client.reliable ==> r.Ok?
    {
      hide Swap, Safe, IsListing, SameAt, Keeps;
      ghost var b := client.objects;
      ghost var h := client.history;
      ghost var apart := Disjoint(src, dst);
      var es, failed := client.ListObjects(src, false);
      ghost var all :| IsListing(b, src, false, all) && es <= all && (!failed ==> es == all);
      ListingKeys(b, src, all, es, failed);
      toDelete := [];
      NothingCopied(b, src, dst);
      var i := 0;
      while i < |es|
        invariant 0 <= i <= |es| && toDelete == Keys(es[..i])
        invariant h <= client.history
        invariant apart ==> Copying(b, client.objects, src, dst, Elems(toDelete))
        invariant apart ==> AllSafe(b, client.history, |h|, src, dst)
        invariant i == 0 ==> client.objects == b
        invariant b.Keys <= client.objects.Keys
      {
        var k := es[i].key;
        if apart {
          CopyStep(b, client.objects, src, dst, Elems(toDelete), k);
        }
        var ok := client.CopyObject(Swap(src, dst, k), k);
        if !ok {
          return Err(Remote), toDelete;
        }
        assert es[..i + 1] == es[..i] + [es[i]];
        KeysAppend(es[..i], es[i]);
        toDelete := toDelete + [k];
        i := i + 1;
      }
      assert es[..i] == es;
      return if failed then Err(Remote) else Ok(()), toDelete;
    }

    /** Rename's second phase: delete the copied keys in turn. */
    method DeleteAll(client: Client, toDelete: seq<string>, ghost b: Bucket, src: string, dst: string) returns (r: Result<()>)
      requires Elems(toDelete) == Under(b, src)
      requires Disjoint(src, dst) ==> Copying(b, client.objects, src, dst, Under(b, src))
      modifies client
      ensures old(client.history) <= client.history
      ensures Disjoint(src, dst) ==> AllSafe(b, client.history, |old(client.history)|, src, dst)
      ensures Disjoint(src, dst) && r.Ok? ==> client.objects == Moved(b, src, dst)
      ensures r != Err(NotFound)
      ensures client.reliable ==> r.Ok?
    {
      hide Safe, Swap, Deleting, Copying, Moved, Under;
      ghost var h := client.history;
      ghost var apart := Disjoint(src, dst);
      if apart {
        AllCopied(b, client.objects, src, dst, Under(b, src));
      }
      var i := 0;
      assert Elems(toDelete[..i]) == {};
      while i < |toDelete|
        invariant 0 <= i <= |toDelete|
        invariant h <= client.history
        invariant apart ==> Deleting(b, client.objects, src, dst, Elems(toDelete[..i]))
        invariant apart ==> AllSafe(b, client.history, |h|, src, dst)
      {
        var k := toDelete[i];
        assert toDelete[..i + 1] == toDelete[..i] + [k];
        assert k in Elems(toDelete);
        assert Elems(toDelete[..i + 1]) == Elems(toDelete[..i]) + {k};
        if apart {
          DeleteStep(b, client.objects, src, dst, Elems(toDelete[..i]), k);
        }
        var ok := client.RemoveObject(k);
        if !ok {
          return Err(Remote);
        }
        i := i + 1;
      }
      assert toDelete[..i] == toDelete;
      if apart {
        AllDeleted(b, client.objects, src, dst, Elems(toDelete));
      }
      return Ok(());
    }
  }

  /** The entry name ListDir reads off a listing event, "" if it has none. */
  function ShownName(dk: string, e: Entry): string {
    var rel := TrimPrefix(e.key, dk);
    if HasSuffix(e.key, "/") then TrimSuffix(rel, "/") else rel
  }

  /** Progress of ListDir's loop: `out` lists the entries named in `seen`. */
  ghost predicate Collected(b: Bucket, dk: string, dir: string, out: seq<FileInfo>, seen: set<string>) {
    && (forall k :: 0 <= k < |out| ==>
          out[k].name in seen && HasEntry(b, dk, out[k].name) && out[k] == EntryInfo(b, dk, dir, out[k].name))
    && (forall k, l :: 0 <= k < l < |out| ==> out[k].name != out[l].name)
    && (forall n :: n in seen ==> exists k :: 0 <= k < |out| && out[k].name == n)
  }

  lemma CollectOne(b: Bucket, dk: string, dir: string, out: seq<FileInfo>, seen: set<string>, n: string)
    requires Collected(b, dk, dir, out, seen) && HasEntry(b, dk, n) && n !in seen
    ensures Collected(b, dk, dir, out + [EntryInfo(b, dk, dir, n)], seen + {n})
  {
    var more := out + [EntryInfo(b, dk, dir, n)];
    assert more[|out|].name == n;
    forall m | m in seen
      ensures exists k :: 0 <= k < |more| && more[k].name == m
    {
      var k :| 0 <= k < |out| && out[k].name == m;
      assert more[k] == out[k];
    }
  }

  ghost predicate Progress(b: Bucket, dk: string, dir: string, es: seq<Entry>, i: nat, out: seq<FileInfo>, seen: set<string>) {
    && Collected(b, dk, dir, out, seen)
    && i <= |es|
    && forall j :: 0 <= j < i ==> ShownName(dk, es[j]) == "" || ShownName(dk, es[j]) in seen
  }

  /** What one listing event adds: nothing if its name is empty or seen, else an
      entry built from the event alone. */
  lemma EventInfo(b: Bucket, dk: string, dir: string, all: seq<Entry>, i: nat, out: seq<FileInfo>, seen: set<string>)
    requires IsListing(b, dk, true, all) && i < |all| && Progress(b, dk, dir, all, i, out, seen)
    ensures var e, n := all[i], ShownName(dk, all[i]);
      var info := FileInfo(n, dir + "/" + n, if e.body.Some? then |e.body.value| else 0, e.body.None?);
      && dk <= e.key
      && (n == "" || n in seen ==> Progress(b, dk, dir, all, i + 1, out, seen))
      && (n != "" && n !in seen ==> Progress(b, dk, dir, all, i + 1, out + [info], seen + {n}))
      && (n != "" ==> (e.body.None? <==> HasSuffix(e.key, "/")))
  {
    var e, n := all[i], ShownName(dk, all[i]);
    ListedIsEntry(b, dk, all, i);
    if n != "" && n !in seen {
      if e.body.None? {
        ObjectListedFirst(b, dk, all, i);
      }
      CollectOne(b, dk, dir, out, seen, n);
    }
  }

  lemma CollectedAll(b: Bucket, dk: string, dir: string, all: seq<Entry>, out: seq<FileInfo>, seen: set<string>)
    requires IsListing(b, dk, true, all) && Progress(b, dk, dir, all, |all|, out, seen)
    ensures IsDirListing(b, dk, dir, out)
  {
    forall n | HasEntry(b, dk, n)
      ensures exists k :: 0 <= k < |out| && out[k].name == n
    {
      var j := EntryIsListed(b, dk, all, n);
      assert ShownName(dk, all[j]) in seen;
    }
  }

  lemma NonemptyListing(b: Bucket, prefix: string, delimited: bool, es: seq<Entry>, failed: bool)
    requires exists all :: IsListing(b, prefix, delimited, all) && es <= all && (!failed ==> es == all)
    ensures es != [] ==> HasUnder(b, prefix)
    ensures !failed && es == [] ==> !HasUnder(b, prefix)
  {
    var all :| IsListing(b, prefix, delimited, all) && es <= all && (!failed ==> es == all);
    if es != [] {
      assert es[0] in all;
    }
  }

  /** A listing event with a name shows an entry of the directory. */
  lemma ListedIsEntry(b: Bucket, dk: string, all: seq<Entry>, i: nat)
    requires IsListing(b, dk, true, all) && i < |all|
    ensures dk <= all[i].key
    ensures var n, e := ShownName(dk, all[i]), all[i];
      && '/' !in n
      && (n != "" ==> HasEntry(b, dk, n) && (e.body.None? <==> HasSuffix(e.key, "/")))
      && (n != "" && e.body.Some? ==> e.key == dk + n && dk + n in b && e.body.value == b[dk + n])
      && (n != "" && e.body.None? ==> e.key == dk + n + "/")
  {
    var e := all[i];
    assert e in all;
    var k :| k in b && dk <= k && e == Shown(b, dk, true, k);
    var n := ShownShape(b, dk, true, k);
    NameOfEvent(dk, n);
    if e.body.None? {
      assert HasUnder(b, e.key);
    }
  }

  lemma NameOfEvent(dk: string, n: string)
    requires '/' !in n
    ensures ShownName(dk, Entry(dk + n + "/", None)) == n && HasSuffix(dk + n + "/", "/")
    ensures forall e: Entry :: e.key == dk + n ==> ShownName(dk, e) == n && (n != "" ==> !HasSuffix(e.key, "/"))
  {
    NameOfFolder(dk, n);
    NameOfObject(dk, n);
  }

  lemma NameOfFolder(dk: string, n: string)
    ensures ShownName(dk, Entry(dk + n + "/", None)) == n && HasSuffix(dk + n + "/", "/")
  {
    hide TrimPrefix, TrimSuffix, HasSuffix;
    assert dk + n + "/" == dk + (n + "/");
    TrimPrefixOf(dk, n + "/");
    TrimSuffixOf(n, "/");
    TrimSuffixOf(dk + n, "/");
  }

  lemma NameOfObject(dk: string, n: string)
    requires '/' !in n
    ensures forall e: Entry :: e.key == dk + n ==> ShownName(dk, e) == n && (n != "" ==> !HasSuffix(e.key, "/"))
  {
    assert TrimSuffix("", "/") == "";
    hide TrimPrefix, TrimSuffix, HasSuffix;
    TrimPrefixOf(dk, n);
    if n != "" {
      EndsOtherwise(dk + n, '/');
    }
  }

  /** An object called like a common prefix comes ahead of it. */
  lemma ObjectListedFirst(b: Bucket, dk: string, all: seq<Entry>, i: nat)
    requires IsListing(b, dk, true, all) && i < |all| && all[i].body.None?
    requires ShownName(dk, all[i]) != ""
    ensures var n := ShownName(dk, all[i]);
      dk + n in b ==> exists j :: 0 <= j < i && ShownName(dk, all[j]) == n
  {
    var n := ShownName(dk, all[i]);
    ListedIsEntry(b, dk, all, i);
    if dk + n in b {
      var j := EntryIsListed(b, dk, all, n);
      assert all[j].key == dk + n;
      assert all[i].key == all[j].key + "/";
    }
  }

  /** Every entry of a directory shows in its listing, as an object if there is
      one of that name. */
  lemma EntryIsListed(b: Bucket, dk: string, all: seq<Entry>, n: string) returns (j: nat)
    requires IsListing(b, dk, true, all) && HasEntry(b, dk, n)
    ensures j < |all| && ShownName(dk, all[j]) == n
    ensures dk + n in b ==> all[j].key == dk + n
  {
    hide Shown;
    var k := EntryIsShown(b, dk, n);
    var e := Shown(b, dk, true, k);
    assert e in all;
    j :| 0 <= j < |all| && all[j] == e;
    NameOfEvent(dk, n);
  }

  lemma EntryIsShown(b: Bucket, dk: string, n: string) returns (k: string)
    requires HasEntry(b, dk, n)
    ensures k in b && dk <= k
    ensures Shown(b, dk, true, k) == if dk + n in b then Entry(dk + n, Some(b[dk + n])) else Entry(dk + n + "/", None)
  {
    if dk + n in b {
      k := dk + n;
      assert k[|dk|..] == n;
      OccursOne(n, '/');
    } else {
      k :| k in b && dk + n + "/" <= k;
      var rest := k[|dk + n + "/"|..];
      assert k == dk + (n + "/" + rest);
      assert k[|dk|..] == n + "/" + rest;
      IndexAfter(n, '/', rest);
      assert k[..|dk| + |n| + 1] == dk + n + "/";
    }
  }

  // -------------------------------------------------------------- removal

  /** Something other than the placeholder lies under the directory. */
  predicate HasChild(b: Bucket, key: string) {
    exists k <- b :: key + "/" <= k && k != key + "/"
  }

  /** A recursive listing shows the children there are. */
  lemma Children(b: Bucket, key: string, es: seq<Entry>, failed: bool)
    requires exists all :: IsListing(b, key + "/", false, all) && es <= all && (!failed ==> es == all)
    ensures forall i :: 0 <= i < |es| && es[i].key != key + "/" ==> HasChild(b, key)
    ensures !failed && (forall i :: 0 <= i < |es| ==> es[i].key == key + "/") ==> !HasChild(b, key)
  {
    var all :| IsListing(b, key + "/", false, all) && es <= all && (!failed ==> es == all);
    ListingKeys(b, key + "/", all, es, failed);
    hide IsListing;
    if !failed && exists k <- b :: key + "/" <= k && k != key + "/" {
      var k :| k in b && key + "/" <= k && k != key + "/";
      assert k in Elems(Keys(es));
    }
  }

  /** Remove's answer when no other request fails. */
  function RemoveResult(b: Bucket, key: string, missed: bool): Result<()> {
    if (key !in b || missed) && HasChild(b, key) then Err(NotEmpty) else Ok(())
  }

  function Removed(b: Bucket, key: string, missed: bool): Bucket {
    if key in b && !missed then b - {key} else if HasChild(b, key) then b else b - {key + "/"}
  }

  /** A successful removal makes the path name nothing: no object was missed, and
      no directory shares the object's path. */
  predicate Goes(b: Bucket, prefix: string, path: string, missed: bool) {
    var key := ToKey(prefix, NormPath(path));
    NormPath(path) != "/" && !missed && !(key in b && HasUnder(b, key + "/"))
  }

  /** After a removal that succeeds the path is gone exactly when `Goes` says so,
      whether or not the object's own lookup failed. */
  lemma RemovedIsGone(b: Bucket, prefix: string, path: string, missed: bool)
    requires missed ==> ToKey(prefix, NormPath(path)) in b
    requires RemoveResult(b, ToKey(prefix, NormPath(path)), missed).Ok?
    ensures var key := ToKey(prefix, NormPath(path));
      StatOf(Removed(b, key, missed), prefix, path).None? <==> Goes(b, prefix, path, missed)
  {
    var key := ToKey(prefix, NormPath(path));
    var b' := Removed(b, key, missed);
    if key in b && !missed {
      if HasUnder(b, key + "/") {
        var k :| k in b && key + "/" <= k;
        assert k in b';
      }
    }
  }

  /** One object, "a", whose lookup fails once: Remove succeeds and the file is
      still there. */
  lemma MissedRemoval()
    ensures var b := map["a" := []];
      && RemoveResult(b, ToKey("", NormPath("/a")), true) == Ok(())
      && StatOf(Removed(b, ToKey("", NormPath("/a")), true), "", "/a") == Some(FileInfo("a", "/a", 0, false))
  {
    ExamplePath();
    hide NormPath, ToKey, NameOf;
    var b: Bucket := map["a" := []];
    assert forall k :: k in b ==> !("a" + "/" <= k);
    assert b - {"a" + "/"} == b;
  }

  lemma ExamplePath()
    ensures NormPath("/a") == "/a" && ToKey("", "/a") == "a" && NameOf("/a") == "a"
  {
    hide NameOf;
    var p := "/a";
    NormPathFixes(p);
    NameOfSplitPoint("", "a");
    assert "" + "/" + "a" == p;
    assert p[1..] == "a";
    assert "" + "a" == "a";
  }

  // ------------------------------------------- what a rename does to paths

  /** A file's rename in so many words: at every state the file's bytes are at one
      of the two keys and every other key is as it was; success swaps the keys. */
  lemma FileRenamedSo(b: Bucket, states: seq<Bucket>, last: Bucket, src: string, dst: string, r: Result<()>)
    requires FileRenamed(b, states, last, src, dst, r) && src != dst
    ensures src in b
    ensures forall i :: 0 <= i < |states| ==>
      (src in states[i] && states[i][src] == b[src]) || (dst in states[i] && states[i][dst] == b[src])
    ensures forall i, k :: 0 <= i < |states| && k != src && k != dst ==>
      (k in states[i] <==> k in b) && (k in b ==> states[i][k] == b[k])
    ensures r.Ok? ==> src !in last && dst in last && last[dst] == b[src]
    ensures r.Ok? ==> forall k :: k != src && k != dst ==> (k in last <==> k in b) && (k in b ==> last[k] == b[k])
  {
    forall i, k | 0 <= i < |states| && k != src && k != dst
      ensures (k in states[i] <==> k in b) && (k in b ==> states[i][k] == b[k])
    {
      assert SameAt(b, states[i], k);
    }
  }

  /** A directory's rename in so many words: at every state each object under the
      source has its bytes there or at its place under the destination, all copies
      are in place if any source key is gone, and every other key is as it was. */
  lemma DirRenamedSo(b: Bucket, states: seq<Bucket>, last: Bucket, src: string, dst: string, r: Result<()>, i: nat, k: string)
    requires DirRenamed(b, states, last, src, dst, r) && !(src <= dst) && !(dst <= src) && i < |states|
    ensures k in b && src <= k ==>
      (k in states[i] && states[i][k] == b[k])
      || (dst + k[|src|..] in states[i] && states[i][dst + k[|src|..]] == b[k])
    ensures (exists s :: s in b && src <= s && s !in states[i]) && k in b && src <= k ==>
      dst + k[|src|..] in states[i] && states[i][dst + k[|src|..]] == b[k]
    ensures !(src <= k) && !(dst <= k && src + k[|dst|..] in b) ==>
      (k in states[i] <==> k in b) && (k in b ==> states[i][k] == b[k])
    ensures src <= k && k in states[i] ==> k in b
    ensures r.Ok? ==> last == Moved(b, src, dst) && exists s :: s in b && src <= s
    ensures r == Err(NotFound) ==> last == b && forall s :: s in b ==> !(src <= s)
  {
    assert Safe(b, states[i], src, dst);
    if !(src <= k) && !(dst <= k && src + k[|dst|..] in b) {
      assert SameAt(b, states[i], k);
    }
  }

  /** Neither directory's prefix extends the other's. */
  predicate ApartDirs(prefix: string, oldPath: string, newPath: string) {
    Disjoint(ToKey(prefix, NormPath(oldPath)) + "/", ToKey(prefix, NormPath(newPath)) + "/")
  }

  /** The old path names nothing now, and the new one what the old one named. */
  predicate WentOver(b: Bucket, b': Bucket, prefix: string, oldPath: string, newPath: string) {
    var before, after := StatOf(b, prefix, oldPath), StatOf(b', prefix, newPath);
    && StatOf(b', prefix, oldPath).None? && before.Some? && after.Some?
    && after.value.isDir == before.value.isDir && after.value.size == before.value.size
  }

  /** No root is involved and no path names both an object and a directory: for a
      file, not its old path, nor was it renamed onto itself or below itself; for a
      directory, neither path has an object, seen or missed. */
  predicate GoesOver(b: Bucket, prefix: string, oldPath: string, newPath: string, asFile: bool) {
    var src, dst := ToKey(prefix, NormPath(oldPath)), ToKey(prefix, NormPath(newPath));
    && NormPath(oldPath) != "/"
    && if asFile then NormPath(newPath) != "/" && src != dst && !HasUnder(b, src + "/") && !(src + "/" <= dst)
       else src !in b && (dst !in b || NormPath(newPath) == "/")
  }

  lemma FileWentOver(b: Bucket, prefix: string, oldPath: string, newPath: string)
    requires ToKey(prefix, NormPath(oldPath)) in b
    ensures var src, dst := ToKey(prefix, NormPath(oldPath)), ToKey(prefix, NormPath(newPath));
      WentOver(b, b[dst := b[src]] - {src}, prefix, oldPath, newPath) <==> GoesOver(b, prefix, oldPath, newPath, true)
  {
    hide NormPath, ToKey, NameOf;
    var src, dst := ToKey(prefix, NormPath(oldPath)), ToKey(prefix, NormPath(newPath));
    var b' := b[dst := b[src]] - {src};
    assert !(src + "/" <= src);
    assert HasUnder(b', src + "/") <==> HasUnder(b, src + "/") || src + "/" <= dst by {
      if HasUnder(b, src + "/") {
        var k :| k in b && src + "/" <= k;
        assert k in b';
      } else if src + "/" <= dst {
        assert dst in b';
      }
    }
  }

  /** The other branch, whether or not there was an object that was missed. */
  lemma DirWentOver(b: Bucket, prefix: string, oldPath: string, newPath: string)
    requires ApartDirs(prefix, oldPath, newPath) && HasUnder(b, ToKey(prefix, NormPath(oldPath)) + "/")
    ensures var src, dst := ToKey(prefix, NormPath(oldPath)) + "/", ToKey(prefix, NormPath(newPath)) + "/";
      WentOver(b, Moved(b, src, dst), prefix, oldPath, newPath) <==> GoesOver(b, prefix, oldPath, newPath, false)
  {
    hide NormPath, ToKey, NameOf, Moved, Disjoint, Swap;
    var src, dst := ToKey(prefix, NormPath(oldPath)), ToKey(prefix, NormPath(newPath));
    var b' := Moved(b, src + "/", dst + "/");
    MovedExact(b, src + "/", dst + "/");
    var k :| k in b && src + "/" <= k;
    assert Keeps(b, b', k, dst + "/" + k[|src + "/"|..]);
    assert HasUnder(b', dst + "/");
    KeyStays(b, src, dst, src);
    KeyStays(b, src, dst, dst);
  }

  /** The directories' own keys are not under them. */
  lemma KeyStays(b: Bucket, src: string, dst: string, k: string)
    requires Disjoint(src + "/", dst + "/") && (k == src || k == dst)
    ensures SameAt(b, Moved(b, src + "/", dst + "/"), k)
  {
    hide Moved, SameAt;
    MovedExact(b, src + "/", dst + "/");
    assert src + "/" <= dst ==> src + "/" <= dst + "/";
    assert dst + "/" <= src ==> dst + "/" <= src + "/";
    assert !(src + "/" <= k) && !(dst + "/" <= k);
  }

  // ------------------------------------------------- listings agree with Stat

  /** The listing of a directory and Stat agree: a name is listed exactly when
      its path can be statted, and Stat then gives the listed entry. */
  lemma ListDirAgreesWithStat(b: Bucket, pre: string, path: string, n: string)
    requires IsName(n)
    ensures var prefix, p := NormalizePrefix(pre), NormPath(path);
      var dk, dir := DirKey(prefix, p), TrimRight(p, '/');
      StatOf(b, prefix, dir + "/" + n) == if HasEntry(b, dk, n) then Some(EntryInfo(b, dk, dir, n)) else None
  {
    hide NameOf, DirKey, NormalizePrefix, ToKey, NormPath, TrimRight;
    ChildOf(pre, path, n);
  }

  /** A listing told by Stat alone: each name once, each entry as Stat gives it at
      its path, and none missing whose path can be statted. */
  lemma ListingIsStatted(b: Bucket, prefix: string, path: string, out: seq<FileInfo>)
    requires prefix == NormalizePrefix(prefix)
    requires IsDirListing(b, DirKey(prefix, NormPath(path)), TrimRight(NormPath(path), '/'), out)
    ensures forall i, j :: 0 <= i < j < |out| ==> out[i].name != out[j].name
    ensures forall i :: 0 <= i < |out| ==>
      out[i].path == TrimRight(NormPath(path), '/') + "/" + out[i].name && StatOf(b, prefix, out[i].path) == Some(out[i])
    ensures forall n :: IsName(n) && StatOf(b, prefix, TrimRight(NormPath(path), '/') + "/" + n).Some? ==>
      exists i :: 0 <= i < |out| && out[i].name == n
  {
    var dir := TrimRight(NormPath(path), '/');
    hide StatOf, NormPath, TrimRight, DirKey, NormalizePrefix;
    forall i | 0 <= i < |out|
      ensures out[i].path == dir + "/" + out[i].name && StatOf(b, prefix, out[i].path) == Some(out[i])
    {
      ListDirAgreesWithStat(b, prefix, path, out[i].name);
    }
    forall n | IsName(n) && StatOf(b, prefix, dir + "/" + n).Some?
      ensures exists i :: 0 <= i < |out| && out[i].name == n
    {
      ListDirAgreesWithStat(b, prefix, path, n);
    }
  }

  /** A listed entry's path: normal, ending in its name, keyed by its name under
      the directory's key. */
  lemma ChildOf(pre: string, path: string, n: string)
    requires IsName(n)
    ensures var prefix, p := NormalizePrefix(pre), NormPath(path);
      var child := TrimRight(p, '/') + "/" + n;
      NormPath(child) == child && child != "/" && NameOf(child) == n && ToKey(prefix, child) == DirKey(prefix, p) + n
  {
    hide NameOf, DirKey, NormalizePrefix;
    var prefix, p := NormalizePrefix(pre), NormPath(path);
    var dir := TrimRight(p, '/');
    var child := dir + "/" + n;
    assert child[|child| - 1] == n[|n| - 1];
    assert child[0] == '/' by {
      if dir != "" { assert dir[0] == p[0]; }
    }
    NormPathFixes(child);
    NameOfSplitPoint(dir, n);
    ChildKey(prefix, p, n);
  }

  lemma ChildKey(prefix: string, p: string, n: string)
    requires Normal(p) && IsName(n)
    requires prefix == "" || HasSuffix(prefix, "/")
    ensures ToKey(prefix, TrimRight(p, '/') + "/" + n) == DirKey(prefix, p) + n
  {
    if p == "/" {
      assert TrimRight(p, '/') == "";
      RootChildKey(prefix, n);
    } else {
      assert TrimRight(p, '/') == p;
      FolderChildKey(prefix, p, n);
    }
  }

  lemma RootChildKey(prefix: string, n: string)
    requires prefix == "" || HasSuffix(prefix, "/")
    ensures DirKey(prefix, "/") == prefix && ToKey(prefix, "" + "/" + n) == prefix + n
  {
    hide TrimPrefix;
    TrimPrefixOf("/", n);
    TrimPrefixOf("/", "");
    assert "/" + "" == "/" && prefix + "" == prefix && "" + "/" + n == "/" + n;
  }

  lemma FolderChildKey(prefix: string, p: string, n: string)
    requires Normal(p) && p != "/"
    ensures ToKey(prefix, p + "/" + n) == DirKey(prefix, p) + n
  {
    hide TrimPrefix, HasSuffix;
    var q := p[1..];
    assert p == "/" + q && q[|q| - 1] == p[|p| - 1];
    assert p + "/" + n == "/" + (q + "/" + n);
    TrimPrefixOf("/", q);
    TrimPrefixOf("/", q + "/" + n);
    NotSlashEnded(prefix, q);
    assert prefix + (q + "/" + n) == prefix + q + "/" + n;
  }

  lemma NotSlashEnded(prefix: string, q: string)
    requires q != "" && q[|q| - 1] != '/'
    ensures prefix + q != "" && !HasSuffix(prefix + q, "/")
  {
    assert (prefix + q)[|prefix + q| - 1] == q[|q| - 1];
    EndsOtherwise(prefix + q, '/');
  }

  /** A key that is no directory marker becomes a path and comes back as itself,
      under the mount's prefix. */
  lemma KeyPathRoundTrip(pre: string, key: string)
    requires key == "" || key[|key| - 1] != '/'
    ensures ToKey(NormalizePrefix(pre), NormPath("/" + key)) == NormalizePrefix(pre) + key
  {
    if key != "" {
      assert ("/" + key)[|key|] == key[|key| - 1];
      NormPathFixes("/" + key);
    }
    assert TrimPrefix("/" + key, "/") == key;
  }

  // --------------------------------------------------------- rename, in steps

  ghost predicate FileSafe(b: Bucket, st: Bucket, src: string, dst: string)
    requires src in b
  {
    && (Keeps(b, st, src, src) || Keeps(b, st, src, dst))
    && forall k :: k != src && k != dst ==> SameAt(b, st, k)
  }

  function Keys(es: seq<Entry>): (r: seq<string>)
    ensures |r| == |es|
    ensures forall i :: 0 <= i < |r| ==> r[i] == es[i].key
  {
    seq(|es|, i requires 0 <= i < |es| => es[i].key)
  }

  function Elems(ks: seq<string>): set<string> {
    set k <- ks
  }

  lemma KeysAppend(es: seq<Entry>, e: Entry)
    ensures Keys(es + [e]) == Keys(es) + [e.key]
    ensures Elems(Keys(es) + [e.key]) == Elems(Keys(es)) + {e.key}
  {
  }

  /** A recursive listing lists exactly the keys under the prefix, each once. */
  lemma ListingKeys(b: Bucket, src: string, all: seq<Entry>, es: seq<Entry>, failed: bool)
    requires IsListing(b, src, false, all) && es <= all && (!failed ==> es == all)
    ensures forall i :: 0 <= i < |es| ==> es[i].key in Under(b, src)
    ensures forall i, j :: 0 <= i < j < |es| ==> es[i].key != es[j].key
    ensures !failed ==> Elems(Keys(es)) == Under(b, src)
  {
    forall i | 0 <= i < |es|
      ensures es[i].key in Under(b, src)
    {
      assert es[i] in all;
    }
    if !failed {
      forall k | k in Under(b, src)
        ensures k in Keys(es)
      {
        var e := Shown(b, src, false, k);
        assert e in es;
        var i :| 0 <= i < |es| && es[i] == e;
        assert Keys(es)[i] == k;
      }
    }
  }

  /** Halfway through the copies: all sources in place, `done` copied. */
  ghost predicate Copying(b: Bucket, st: Bucket, src: string, dst: string, done: set<string>) {
    && done <= Under(b, src)
    && (forall k :: k in Under(b, src) ==> Keeps(b, st, k, k))
    && (forall k :: k in done ==> Keeps(b, st, k, Swap(src, dst, k)))
    && (forall k :: !(src <= k) && !(dst <= k && src + k[|dst|..] in b) ==> SameAt(b, st, k))
    && (forall k :: k in st && src <= k ==> k in b)
  }

  lemma NothingCopied(b: Bucket, src: string, dst: string)
    ensures Copying(b, b, src, dst, Elems([]))
  {
  }

  /** Halfway through the deletes: all copies in place, `gone` deleted. */
  ghost predicate Deleting(b: Bucket, st: Bucket, src: string, dst: string, gone: set<string>) {
    && gone <= Under(b, src)
    && (forall k :: k in Under(b, src) ==> Keeps(b, st, k, Swap(src, dst, k)))
    && (forall k :: k in Under(b, src) && k !in gone ==> Keeps(b, st, k, k))
    && (forall k :: k in gone ==> k !in st)
    && (forall k :: !(src <= k) && !(dst <= k && src + k[|dst|..] in b) ==> SameAt(b, st, k))
    && (forall k :: k in st && src <= k ==> k in b)
  }

  lemma SwapApart(src: string, dst: string, k: string)
    requires Disjoint(src, dst) && src <= k
    ensures dst <= Swap(src, dst, k) && !(src <= Swap(src, dst, k))
    ensures src + Swap(src, dst, k)[|dst|..] == k
  {
    var s := Swap(src, dst, k);
    assert s[|dst|..] == k[|src|..];
    if src <= s {
      PrefixesNest(src, dst, s);
      assert false;
    }
  }

  lemma PrefixesNest(p: string, q: string, s: string)
    requires p <= s && q <= s
    ensures p <= q || q <= p
  {
    assert p == s[..|p|] && q == s[..|q|];
  }

  lemma CopyStep(b: Bucket, st: Bucket, src: string, dst: string, done: set<string>, k: string)
    requires Disjoint(src, dst) && Copying(b, st, src, dst, done) && k in Under(b, src)
    ensures k in st && Copying(b, st[Swap(src, dst, k) := st[k]], src, dst, done + {k})
    ensures Safe(b, st, src, dst) && Safe(b, st[Swap(src, dst, k) := st[k]], src, dst)
  {
    hide Swap;
    SwapApart(src, dst, k);
    forall l | l in Under(b, src)
      ensures Swap(src, dst, l) == Swap(src, dst, k) ==> l == k
    {
      SwapApart(src, dst, l);
    }
    var st' := st[Swap(src, dst, k) := st[k]];
    forall l | l in Under(b, src)
      ensures Keeps(b, st', l, l)
      ensures l in done + {k} ==> Keeps(b, st', l, Swap(src, dst, l))
    {
      SwapApart(src, dst, l);
      assert Keeps(b, st, l, l);
    }
    forall l | !(src <= l) && !(dst <= l && src + l[|dst|..] in b)
      ensures SameAt(b, st', l)
    {
      assert SameAt(b, st, l);
    }
    CopyingIsSafe(b, st, src, dst, done);
    CopyingIsSafe(b, st[Swap(src, dst, k) := st[k]], src, dst, done + {k});
  }

  lemma CopyingIsSafe(b: Bucket, st: Bucket, src: string, dst: string, done: set<string>)
    requires Copying(b, st, src, dst, done)
    ensures Safe(b, st, src, dst)
  {
    hide Swap;
    assert forall k :: k in b && src <= k ==> k in Under(b, src);
  }

  lemma DeletingIsSafe(b: Bucket, st: Bucket, src: string, dst: string, gone: set<string>)
    requires Deleting(b, st, src, dst, gone)
    ensures Safe(b, st, src, dst)
  {
    hide Swap;
    assert forall k :: k in b && src <= k ==> k in Under(b, src);
  }

  lemma AllCopied(b: Bucket, st: Bucket, src: string, dst: string, done: set<string>)
    requires Copying(b, st, src, dst, done) && done == Under(b, src)
    ensures Deleting(b, st, src, dst, {})
  {
  }

  lemma DeleteStep(b: Bucket, st: Bucket, src: string, dst: string, gone: set<string>, k: string)
    requires Disjoint(src, dst) && Deleting(b, st, src, dst, gone) && k in Under(b, src)
    ensures Deleting(b, st - {k}, src, dst, gone + {k})
    ensures Safe(b, st, src, dst) && Safe(b, st - {k}, src, dst)
  {
    hide Swap;
    forall l | l in Under(b, src)
      ensures Keeps(b, st - {k}, l, Swap(src, dst, l))
      ensures l !in gone + {k} ==> Keeps(b, st - {k}, l, l)
    {
      SwapApart(src, dst, l);
      assert Keeps(b, st, l, Swap(src, dst, l));
    }
    forall l | !(src <= l) && !(dst <= l && src + l[|dst|..] in b)
      ensures SameAt(b, st - {k}, l)
    {
      assert SameAt(b, st, l);
    }
    DeletingIsSafe(b, st, src, dst, gone);
    DeletingIsSafe(b, st - {k}, src, dst, gone + {k});
  }

  lemma AllDeleted(b: Bucket, st: Bucket, src: string, dst: string, gone: set<string>)
    requires Disjoint(src, dst) && Deleting(b, st, src, dst, gone) && gone == Under(b, src)
    ensures st == Moved(b, src, dst)
  {
    MovedKeys(b, src, dst);
    var m := Moved(b, src, dst);
    forall k
      ensures k in st <==> k in m
      ensures k in st && k in m ==> st[k] == m[k]
    {
      if dst <= k && src + k[|dst|..] in b {
        var s := src + k[|dst|..];
        assert s in Under(b, src) && Keeps(b, st, s, Swap(src, dst, s));
      } else if src <= k {
        assert k in st ==> k in Under(b, src);
      } else {
        assert SameAt(b, st, k);
      }
    }
  }

  /** Two directories that part at different names are apart, wherever they lie. */
  lemma DirectoriesApart(parent: string, m: string, x: string, n: string, y: string)
    requires IsName(m) && IsName(n) && m != n
    ensures Disjoint(parent + m + "/" + x, parent + n + "/" + y)
  {
    if parent + m + "/" + x <= parent + n + "/" + y {
      SameName(parent, m, x, n, y);
    }
    if parent + n + "/" + y <= parent + m + "/" + x {
      SameName(parent, n, y, m, x);
    }
  }

  lemma SameName(parent: string, m: string, x: string, n: string, y: string)
    requires IsName(m) && IsName(n) && parent + m + "/" + x <= parent + n + "/" + y
    ensures m == n
  {
    var src, dst := parent + m + "/" + x, parent + n + "/" + y;
    NameAt(parent, m, x);
    NameAt(parent, n, y);
    assert forall i :: 0 <= i < |src| ==> src[i] == dst[i];
    assert |m| == |n|;
    assert forall k :: 0 <= k < |m| ==> m[k] == src[|parent| + k] == n[k];
  }

  lemma NameAt(parent: string, n: string, y: string)
    ensures var s := parent + n + "/" + y;
      s[|parent| + |n|] == '/' && forall k :: 0 <= k < |n| ==> s[|parent| + k] == n[k]
  {
  }

  /** The keys of the moved bucket: the untouched ones and the destinations. */
  lemma MovedKeys(b: Bucket, src: string, dst: string)
    requires Disjoint(src, dst)
    ensures forall k :: k in Moved(b, src, dst) <==> (k in b && !(src <= k)) || (dst <= k && src + k[|dst|..] in b)
    ensures forall k :: dst <= k && src + k[|dst|..] in b ==>
      !(src <= k) && src + k[|dst|..] in Under(b, src) && Swap(src, dst, src + k[|dst|..]) == k
  {
    var images := set s <- Under(b, src) :: Swap(src, dst, s);
    forall k | k in images
      ensures dst <= k && src + k[|dst|..] in b
    {
      var s :| s in Under(b, src) && Swap(src, dst, s) == k;
      SwapApart(src, dst, s);
    }
    forall k | dst <= k && src + k[|dst|..] in b
      ensures !(src <= k) && src + k[|dst|..] in Under(b, src) && Swap(src, dst, src + k[|dst|..]) == k
    {
      var s := src + k[|dst|..];
      assert Swap(src, dst, s) == k;
      SwapApart(src, dst, s);
    }
  }

  /** A finished directory rename, key by key: nothing is left under the source,
      and every key's suffix and bytes stand under the destination. */
  lemma MovedExact(b: Bucket, src: string, dst: string)
    requires Disjoint(src, dst)
    ensures !HasUnder(Moved(b, src, dst), src)
    ensures forall k :: k in b && src <= k ==> Keeps(b, Moved(b, src, dst), k, dst + k[|src|..])
    ensures forall k :: !(src <= k) && !(dst <= k && src + k[|dst|..] in b) ==> SameAt(b, Moved(b, src, dst), k)
  {
    MovedKeys(b, src, dst);
    forall k | k in b && src <= k
      ensures Keeps(b, Moved(b, src, dst), k, dst + k[|src|..])
    {
      SwapApart(src, dst, k);
      assert Swap(src, dst, k) == dst + k[|src|..];
    }
  }
}

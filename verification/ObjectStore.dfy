/** `Local` of aperag/objectstore/local.py: objects as files in a directory tree under a base
    directory. The tree is kept so tight that it is no more than a map from paths to bytes. */
module ObjectStore {
  import opened Common
  import SplitterSpec

  type Bytes = seq<bv8>

  /** The components of a path below the base directory, which is the empty path. */
  type Path = seq<string>

  // ------------------------------------------------------------------
  // Path strings
  // ------------------------------------------------------------------

  function StripSlashes(s: string): string {
    if s != "" && s[0] == '/' then StripSlashes(s[1..]) else s
  }

  function ForwardSlashes(s: string): string {
    if s == "" then "" else [if s[0] == '\\' then '/' else s[0]] + ForwardSlashes(s[1..])
  }

  /** The length of the first component. */
  function FirstSlash(s: string): (n: nat)
    ensures n <= |s| && '/' !in s[..n] && (n < |s| ==> s[n] == '/')
  {
    if s == "" || s[0] == '/' then 0 else 1 + FirstSlash(s[1..])
  }

  /** `Path(s).parts` of a relative path: empty components and "." are dropped. */
  function Components(s: string): Path
    decreases |s|
  {
    if s == "" then []
    else
      var n := FirstSlash(s);
      var rest := if n < |s| then Components(s[n + 1..]) else [];
      if s[..n] == "" || s[..n] == "." then rest else [s[..n]] + rest
  }

  /** None where the code raises: an empty path, or one with a ".." component. */
  function Resolve(path: string): Option<Path> {
    var components := Components(StripSlashes(path));
    if components == [] || ".." in components then None else Some(components)
  }

  predicate ProperComponent(c: string) {
    c != "" && c != "." && c != ".." && '/' !in c
  }

  predicate AllProper(path: Path) {
    path == [] || (ProperComponent(path[0]) && AllProper(path[1..]))
  }

  predicate ProperPath(path: Path) {
    path != [] && AllProper(path)
  }

  /** `str(path.relative_to(base))`. */
  function Relative(path: Path): string {
    if path == [] then "" else if |path| == 1 then path[0] else path[0] + "/" + Relative(path[1..])
  }

  /** The name under which an object is listed and matched. */
  function Name(path: Path): string {
    ForwardSlashes(Relative(path))
  }

  // ------------------------------------------------------------------
  // What paths resolve to
  // ------------------------------------------------------------------

  predicate Real(component: string) {
    component != "" && component != "."
  }

  function Reals(parts: seq<string>): seq<string> {
    if parts == [] then [] else (if Real(parts[0]) then [parts[0]] else []) + Reals(parts[1..])
  }

  /** The components are the parts between slashes, without the empty ones and the dots. */
  lemma {:induction false} ComponentsAreParts(s: string)
    ensures Components(s) == Reals(SplitterSpec.PySplit(s, "/"))
    decreases |s|
  {
    var n, i := FirstSlash(s), SplitterSpec.Find(s, "/", 0);
    SlashFound(s);
    if i < 0 {
      assert s[..n] == s;
      assert [s][1..] == [] && [s] + [] == [s];
    } else {
      ComponentsAreParts(s[n + 1..]);
      var rest := SplitterSpec.PySplit(s[n + 1..], "/");
      assert ([s[..n]] + rest)[1..] == rest;
      assert [] + Reals(rest) == Reals(rest);
    }
  }

  lemma {:induction false} SlashFound(s: string)
    ensures FirstSlash(s) == if SplitterSpec.Find(s, "/", 0) < 0 then |s| else SplitterSpec.Find(s, "/", 0)
  {
    var n, i := FirstSlash(s), SplitterSpec.Find(s, "/", 0);
    SplitterSpec.FindHits(s, "/", 0);
    if n < |s| {
      assert s[n..n + 1] == "/";
      assert SplitterSpec.OccursAt(s, "/", n);
    }
    forall j: nat | j < n ensures !SplitterSpec.OccursAt(s, "/", j) {
      assert s[j..j + 1] == [s[j]] && s[j] in s[..n];
    }
  }

  lemma {:induction false} RealsMembers(parts: seq<string>, c: string)
    ensures c in Reals(parts) <==> c in parts && Real(c)
  {
    if parts != [] {
      RealsMembers(parts[1..], c);
    }
  }

  /** A path resolves exactly if something lies between its slashes and nothing between them is "..". */
  lemma {:induction false} ResolvesExactly(path: string)
    ensures var parts := SplitterSpec.PySplit(StripSlashes(path), "/");
      && (Resolve(path).Some? <==> (exists c <- parts :: Real(c)) && ".." !in parts)
      && (Resolve(path).Some? ==> Resolve(path).value == Reals(parts))
  {
    var parts := SplitterSpec.PySplit(StripSlashes(path), "/");
    ComponentsAreParts(StripSlashes(path));
    RealsMembers(parts, "..");
    if Reals(parts) != [] {
      RealsMembers(parts, Reals(parts)[0]);
    }
    forall c | c in parts && Real(c) ensures Reals(parts) != [] {
      RealsMembers(parts, c);
    }
  }

  /** Leading slashes, and only they, are taken off. */
  lemma {:induction false} SlashesStripped(path: string) returns (n: nat)
    ensures n <= |path| && StripSlashes(path) == path[n..]
    ensures (forall i | 0 <= i < n :: path[i] == '/') && (n < |path| ==> path[n] != '/')
  {
    n := 0;
    if path != "" && path[0] == '/' {
      n := SlashesStripped(path[1..]);
      n := n + 1;
      assert forall i | 0 < i < n :: path[i] == path[1..][i - 1];
    }
  }

  lemma {:induction false} ResolvesToProper(path: string)
    requires Resolve(path).Some?
    ensures ProperPath(Resolve(path).value)
  {
    ComponentsProper(StripSlashes(path));
  }

  lemma {:induction false} ComponentsProper(s: string)
    requires ".." !in Components(s)
    ensures AllProper(Components(s))
    decreases |s|
  {
    if s != "" {
      var n := FirstSlash(s);
      if n < |s| {
        var rest := Components(s[n + 1..]);
        assert ".." in rest ==> ".." in Components(s);
        ComponentsProper(s[n + 1..]);
      }
    }
  }

  /** The string of a proper path resolves to the path. */
  lemma {:induction false} RelativeResolves(path: Path)
    requires ProperPath(path)
    ensures Components(Relative(path)) == path && StripSlashes(Relative(path)) == Relative(path)
    decreases |path|
  {
    var s := Relative(path);
    FirstComponent(path[0], s);
    ComponentsStep(s);
    if |path| > 1 {
      RelativeResolves(path[1..]);
      assert s[|path[0]| + 1..] == Relative(path[1..]);
      assert path == [path[0]] + path[1..];
    } else {
      assert path == [path[0]] + [];
    }
  }

  lemma {:induction false} ComponentsStep(s: string)
    requires s != "" && ProperComponent(s[..FirstSlash(s)])
    ensures var n := FirstSlash(s);
            Components(s) == [s[..n]] + (if n < |s| then Components(s[n + 1..]) else [])
  {
  }

  lemma {:induction false} FirstComponent(c: string, s: string)
    requires ProperComponent(c) && c <= s && (|c| < |s| ==> s[|c|] == '/')
    ensures FirstSlash(s) == |c| && s[..|c|] == c && s != "" && s[0] != '/'
  {
    var n := FirstSlash(s);
    assert forall i | 0 <= i < |c| :: s[i] == c[i] && s[i] in c;
    assert forall i | 0 <= i < n :: s[i] in s[..n];
  }

  predicate NoBackslash(path: Path) {
    path == [] || ('\\' !in path[0] && NoBackslash(path[1..]))
  }

  /** A listed name denotes the object it was made from exactly when the path holds no backslash. */
  lemma {:induction false} ListedNameResolves(path: Path)
    requires ProperPath(path)
    ensures Resolve(Name(path)) == Some(path) <==> NoBackslash(path)
  {
    var name := Name(path);
    NameHasNoBackslash(Relative(path));
    StrippedPart(name);
    PartsHaveNoBackslash(StripSlashes(name));
    if NoBackslash(path) {
      RelativeResolves(path);
      RelativeHasNoBackslash(path);
      UnchangedSlashes(Relative(path));
      NoDots(path);
    }
  }

  lemma {:induction false} NoDots(path: Path)
    requires AllProper(path)
    ensures ".." !in path
  {
    if path != [] {
      NoDots(path[1..]);
    }
  }

  lemma {:induction false} NameHasNoBackslash(s: string)
    ensures '\\' !in ForwardSlashes(s)
  {
    if s != "" {
      NameHasNoBackslash(s[1..]);
    }
  }

  lemma {:induction false} UnchangedSlashes(s: string)
    requires '\\' !in s
    ensures ForwardSlashes(s) == s
  {
    if s != "" {
      UnchangedSlashes(s[1..]);
      assert s == [s[0]] + s[1..];
    }
  }

  lemma {:induction false} RelativeHasNoBackslash(path: Path)
    requires NoBackslash(path)
    ensures '\\' !in Relative(path)
  {
    if |path| > 1 {
      RelativeHasNoBackslash(path[1..]);
    }
  }

  lemma {:induction false} StrippedPart(s: string)
    ensures '\\' !in s ==> '\\' !in StripSlashes(s)
  {
    if s != "" && s[0] == '/' {
      StrippedPart(s[1..]);
    }
  }

  lemma {:induction false} PartsHaveNoBackslash(s: string)
    requires '\\' !in s
    ensures NoBackslash(Components(s))
    decreases |s|
  {
    if s != "" {
      var n := FirstSlash(s);
      if n < |s| {
        PartsHaveNoBackslash(s[n + 1..]);
      }
    }
  }

  // ------------------------------------------------------------------
  // The map that the store stands for
  // ------------------------------------------------------------------

  datatype Operation = Put(path: string, data: Bytes) | Delete(path: string) | DeleteByPrefix(pathPrefix: string)

  /** A path that is neither below an object nor above one. */
  ghost predicate Free(objects: map<Path, Bytes>, path: Path) {
    forall other <- objects :: !(other < path) && !(path < other)
  }

  function Normalized(pathPrefix: string): string {
    ForwardSlashes(StripSlashes(pathPrefix))
  }

  predicate Matches(path: Path, pathPrefix: string) {
    Normalized(pathPrefix) <= Name(path)
  }

  lemma {:induction false} ForwardByCharacter(s: string)
    ensures |ForwardSlashes(s)| == |s|
    ensures forall i | 0 <= i < |s| :: ForwardSlashes(s)[i] == if s[i] == '\\' then '/' else s[i]
  {
    if s != "" {
      ForwardByCharacter(s[1..]);
      assert forall i | 0 < i < |s| :: s[i] == s[1..][i - 1];
    }
  }

  /** A prefix is matched without its leading slashes and with slashes for its backslashes; a name is
      the components of its path between slashes, likewise. */
  lemma {:induction false} PrefixIsNormalized(pathPrefix: string) returns (n: nat)
    ensures n <= |pathPrefix| && |Normalized(pathPrefix)| == |pathPrefix| - n
    ensures (forall i | 0 <= i < n :: pathPrefix[i] == '/') && (n < |pathPrefix| ==> pathPrefix[n] != '/')
    ensures forall i | 0 <= i < |pathPrefix| - n ::
      Normalized(pathPrefix)[i] == if pathPrefix[n + i] == '\\' then '/' else pathPrefix[n + i]
  {
    n := SlashesStripped(pathPrefix);
    ForwardByCharacter(StripSlashes(pathPrefix));
  }

  /** A prefix that names a directory and ends in a slash matches exactly what lies below the directory. */
  lemma {:induction false} DirectoryPrefix(dir: Path, path: Path)
    requires ProperPath(dir) && ProperPath(path) && NoBackslash(dir) && NoBackslash(path)
    ensures Matches(path, Relative(dir) + "/") <==> dir < path
  {
    var pathPrefix := Relative(dir) + "/";
    RelativeHasNoBackslash(path);
    RelativeHasNoBackslash(dir);
    UnchangedSlashes(Relative(path));
    UnchangedSlashes(pathPrefix);
    FirstComponent(dir[0], Relative(dir));
    assert pathPrefix[0] == Relative(dir)[0];
    BelowByPrefix(dir, path);
  }

  lemma {:induction false} BelowByPrefix(dir: Path, path: Path)
    requires ProperPath(dir) && ProperPath(path)
    ensures Relative(dir) + "/" <= Relative(path) <==> dir < path
  {
    var a, b, s, t := dir[0], path[0], Relative(path), Relative(dir) + "/";
    FirstComponent(b, s);
    if t <= s {
      StartsWithComponent(a, t, s);
    }
    if a == b && |path| > 1 {
      AfterComponent(a, t, s, AfterFirst(dir), Relative(path[1..]));
      if |dir| > 1 {
        BelowByPrefix(dir[1..], path[1..]);
      }
      assert dir < path <==> dir[1..] < path[1..];
    }
  }

  /** The prefix without the first component and its slash. */
  function AfterFirst(dir: Path): string
    requires dir != []
  {
    if |dir| == 1 then "" else Relative(dir[1..]) + "/"
  }

  lemma {:induction false} StartsWithComponent(a: string, t: string, s: string)
    requires ProperComponent(a) && a + "/" <= t && t <= s
    ensures FirstSlash(s) == |a| < |s| && s[..|a|] == a
  {
    assert s[|a|] == t[|a|] == (a + "/")[|a|];
    assert a <= s;
    FirstComponent(a, s);
  }

  lemma {:induction false} AfterComponent(a: string, t: string, s: string, u: string, v: string)
    requires t == a + "/" + u && s == a + "/" + v
    ensures t <= s <==> u <= v
  {
    assert t[|a| + 1..] == u && s[|a| + 1..] == v;
    if u <= v {
      assert s[..|t|] == a + "/" + v[..|u|];
    }
    if t <= s {
      assert s[..|t|][|a| + 1..] == v[..|u|];
    }
  }

  function Without(objects: map<Path, Bytes>, pathPrefix: string): map<Path, Bytes> {
    map p | p in objects && !Matches(p, pathPrefix) :: objects[p]
  }

  /** The effect of an operation. A put on a path that does not resolve or is not free fails and
      changes nothing; deleting by a prefix that is empty once normalized is skipped. */
  ghost function Apply(objects: map<Path, Bytes>, op: Operation): map<Path, Bytes> {
    match op
    case Put(path, data) =>
      var target := Resolve(path);
      if target.Some? && Free(objects, target.value) then objects[target.value := data] else objects
    case Delete(path) =>
      var target := Resolve(path);
      if target.Some? then objects - {target.value} else objects
    case DeleteByPrefix(pathPrefix) =>
      if Normalized(pathPrefix) == "" then objects else Without(objects, pathPrefix)
  }

  ghost function ApplyAll(objects: map<Path, Bytes>, ops: seq<Operation>): map<Path, Bytes> {
    if ops == [] then objects else Apply(ApplyAll(objects, ops[..|ops| - 1]), ops[|ops| - 1])
  }

  ghost predicate Separate(objects: map<Path, Bytes>) {
    forall p <- objects, q <- objects :: !(p < q)
  }

  /** In every reachable map no object lies below another. */
  lemma {:induction false} RunsStaySeparate(ops: seq<Operation>)
    ensures Separate(ApplyAll(map[], ops))
  {
    if ops != [] {
      RunsStaySeparate(ops[..|ops| - 1]);
    }
  }

  /** After any run, an object has the bytes of its last effective put. */
  lemma {:induction false} LastPutWins(before: seq<Operation>, path: string, data: Bytes, after: seq<Operation>)
    requires Resolve(path).Some? && Free(ApplyAll(map[], before), Resolve(path).value)
    requires forall op <- after :: Spares(op, Resolve(path).value)
    ensures var objects := ApplyAll(map[], before + [Put(path, data)] + after);
            Resolve(path).value in objects && objects[Resolve(path).value] == data
    decreases |after|
  {
    var ops := before + [Put(path, data)] + after;
    if after == [] {
      assert ops[..|ops| - 1] == before;
      LastApplies(ops);
    } else {
      var shorter := after[..|after| - 1];
      assert ops[..|ops| - 1] == before + [Put(path, data)] + shorter;
      LastPutWins(before, path, data, shorter);
      LastApplies(ops);
      SparedSurvives(ApplyAll(map[], ops[..|ops| - 1]), after[|after| - 1], Resolve(path).value);
    }
  }

  lemma {:induction false} LastApplies(ops: seq<Operation>)
    requires ops != []
    ensures ApplyAll(map[], ops) == Apply(ApplyAll(map[], ops[..|ops| - 1]), ops[|ops| - 1])
  {
  }

  lemma {:induction false} SparedSurvives(objects: map<Path, Bytes>, op: Operation, path: Path)
    requires path in objects && Spares(op, path)
    ensures path in Apply(objects, op) && Apply(objects, op)[path] == objects[path]
  {
  }

  /** The operation neither overwrites nor deletes the object. */
  predicate Spares(op: Operation, path: Path) {
    match op
    case Put(p, data) => Resolve(p) != Some(path)
    case Delete(p) => Resolve(p) != Some(path)
    case DeleteByPrefix(pathPrefix) => Normalized(pathPrefix) == "" || !Matches(path, pathPrefix)
  }

  /** The operation deletes the object at the path. */
  predicate Wipes(op: Operation, path: Path) {
    match op
    case Put(_, _) => false
    case Delete(p) => Resolve(p) == Some(path)
    case DeleteByPrefix(pathPrefix) => Normalized(pathPrefix) != "" && Normalized(pathPrefix) <= Name(path)
  }

  /** The put at position `i` of the run is to this path, and nothing is in its way. */
  ghost predicate PutAt(ops: seq<Operation>, i: nat, path: Path)
    requires i < |ops|
  {
    ops[i].Put? && Resolve(ops[i].path) == Some(path) && Free(ApplyAll(map[], ops[..i]), path)
  }

  /** Some effective put of the path is followed by no operation that deletes it. */
  ghost predicate Stands(ops: seq<Operation>, path: Path) {
    exists i | 0 <= i < |ops| :: PutAt(ops, i, path) && NotWipedAfter(ops, i, path)
  }

  predicate NotWipedAfter(ops: seq<Operation>, i: nat, path: Path) {
    forall j | i < j < |ops| :: !Wipes(ops[j], path)
  }

  lemma {:induction false} OneMore(objects: map<Path, Bytes>, op: Operation, path: Path)
    ensures path in Apply(objects, op)
       <==> (op.Put? && Resolve(op.path) == Some(path) && Free(objects, path)) || (path in objects && !Wipes(op, path))
  {
  }

  /** After any run exactly those objects are stored of which some effective put was not undone. */
  lemma {:induction false} StoredExactly(ops: seq<Operation>, path: Path)
    ensures path in ApplyAll(map[], ops) <==> Stands(ops, path)
    decreases |ops|
  {
    if ops != [] {
      var n := |ops| - 1;
      StoredExactly(ops[..n], path);
      OneMore(ApplyAll(map[], ops[..n]), ops[n], path);
      if Stands(ops[..n], path) && !Wipes(ops[n], path) {
        StandsOn(ops, path);
      }
      if PutAt(ops, n, path) {
        assert NotWipedAfter(ops, n, path);
      }
      if Stands(ops, path) {
        StoodBefore(ops, path);
      }
    }
  }

  lemma {:induction false} SamePut(ops: seq<Operation>, i: nat, path: Path)
    requires i + 1 < |ops|
    ensures PutAt(ops[..|ops| - 1], i, path) <==> PutAt(ops, i, path)
    ensures NotWipedAfter(ops, i, path)
       <==> NotWipedAfter(ops[..|ops| - 1], i, path) && !Wipes(ops[|ops| - 1], path)
  {
    var before := ops[..|ops| - 1];
    assert before[..i] == ops[..i];
    assert forall j | i < j < |before| :: before[j] == ops[j];
  }

  lemma {:induction false} StandsOn(ops: seq<Operation>, path: Path)
    requires ops != [] && Stands(ops[..|ops| - 1], path) && !Wipes(ops[|ops| - 1], path)
    ensures Stands(ops, path)
  {
    var before := ops[..|ops| - 1];
    var i :| 0 <= i < |before| && PutAt(before, i, path) && NotWipedAfter(before, i, path);
    SamePut(ops, i, path);
  }

  lemma {:induction false} StoodBefore(ops: seq<Operation>, path: Path)
    requires ops != [] && Stands(ops, path)
    ensures PutAt(ops, |ops| - 1, path) || (Stands(ops[..|ops| - 1], path) && !Wipes(ops[|ops| - 1], path))
  {
    var i :| 0 <= i < |ops| && PutAt(ops, i, path) && NotWipedAfter(ops, i, path);
    if i + 1 < |ops| {
      SamePut(ops, i, path);
    }
  }

  // ------------------------------------------------------------------
  // The tree
  // ------------------------------------------------------------------

  function Parent(path: Path): Path
    requires path != []
  {
    path[..|path| - 1]
  }

  /** Parents of files and directories are directories; the base directory is left implicit. */
  ghost predicate Tree(files: set<Path>, dirs: set<Path>) {
    && [] !in files && [] !in dirs && files !! dirs
    && forall p :: p in files || p in dirs ==> |p| > 1 ==> Parent(p) in dirs
  }

  ghost predicate HasFileBelow(files: set<Path>, dir: Path) {
    exists f <- files :: dir < f
  }

  /** The directory has a file below it or is one of those, or above one of those, still to be checked. */
  ghost predicate Settled(files: set<Path>, dirs: set<Path>, pending: set<Path>, dir: Path) {
    HasFileBelow(files, dir) || exists e <- pending :: e in dirs && dir <= e
  }

  ghost predicate AllSettled(files: set<Path>, dirs: set<Path>, pending: set<Path>) {
    forall d <- dirs :: Settled(files, dirs, pending, d)
  }

  predicate HasEntry(files: set<Path>, dirs: set<Path>, dir: Path) {
    exists p <- files + dirs :: p != [] && Parent(p) == dir
  }

  lemma {:induction false} PrefixesAreDirs(files: set<Path>, dirs: set<Path>, p: Path, d: Path)
    requires Tree(files, dirs) && (p in files || p in dirs) && [] < d < p
    ensures d in dirs
    decreases |p|
  {
    if d != Parent(p) {
      PrefixesAreDirs(files, dirs, Parent(p), d);
    }
  }

  /** In a tidy tree the directories are determined by the files. */
  lemma {:induction false} TidyTreeIsDetermined(files: set<Path>, dirs: set<Path>, d: Path)
    requires Tree(files, dirs) && AllSettled(files, dirs, {})
    ensures d in dirs <==> d != [] && HasFileBelow(files, d)
  {
    if d in dirs {
      assert Settled(files, dirs, {}, d);
    }
    if d != [] && HasFileBelow(files, d) {
      var f :| f in files && d < f;
      PrefixesAreDirs(files, dirs, f, d);
    }
  }

  /** Removing a file leaves its parent to be checked. */
  lemma {:induction false} UnlinkKeepsSettled(files: set<Path>, dirs: set<Path>, pending: set<Path>, f: Path)
    requires Tree(files, dirs) && AllSettled(files, dirs, pending) && f in files
    ensures Tree(files - {f}, dirs) && AllSettled(files - {f}, dirs, pending + {Parent(f)})
  {
    forall d <- dirs
      ensures Settled(files - {f}, dirs, pending + {Parent(f)}, d)
    {
      assert Settled(files, dirs, pending, d);
      if d < f {
        assert d <= Parent(f) && Parent(f) in dirs;
      } else if HasFileBelow(files, d) {
        var g :| g in files && d < g;
        assert g in files - {f};
      }
    }
  }

  lemma {:induction false} RmdirKeepsTree(files: set<Path>, dirs: set<Path>, dir: Path)
    requires Tree(files, dirs) && dir in dirs && !HasEntry(files, dirs, dir)
    ensures Tree(files, dirs - {dir}) && (|dir| > 1 ==> Parent(dir) in dirs - {dir})
  {
    forall p | p in files + dirs && |p| > 1
      ensures Parent(p) in dirs - {dir}
    {
    }
  }

  /** Removing an empty directory moves the check to its parent. */
  lemma {:induction false} RmdirKeepsSettled(files: set<Path>, dirs: set<Path>, pending: set<Path>, dir: Path)
    requires Tree(files, dirs) && AllSettled(files, dirs, pending + {dir}) && dir in dirs
    requires !HasEntry(files, dirs, dir)
    ensures Tree(files, dirs - {dir}) && AllSettled(files, dirs - {dir}, pending + {Parent(dir)})
  {
    RmdirKeepsTree(files, dirs, dir);
    forall d <- dirs - {dir}
      ensures Settled(files, dirs - {dir}, pending + {Parent(dir)}, d)
    {
      RmdirSettles(files, dirs, pending, dir, d);
    }
  }

  lemma {:induction false} RmdirSettles(files: set<Path>, dirs: set<Path>, pending: set<Path>, dir: Path, d: Path)
    requires dir != [] && (|dir| > 1 ==> Parent(dir) in dirs - {dir}) && d in dirs - {dir} && d != []
    requires Settled(files, dirs, pending + {dir}, d)
    ensures Settled(files, dirs - {dir}, pending + {Parent(dir)}, d)
  {
    if !HasFileBelow(files, d) {
      var e :| e in pending + {dir} && e in dirs && d <= e;
      if e == dir {
        assert |d| == |dir| ==> d == dir;
        assert d <= Parent(dir) && Parent(dir) in pending + {Parent(dir)};
      } else {
        assert e in pending + {Parent(dir)} && e in dirs - {dir};
      }
    }
  }

  /** A directory with an entry, and those above it, need no further check. */
  lemma {:induction false} EntrySettles(files: set<Path>, dirs: set<Path>, pending: set<Path>, dir: Path)
    requires Tree(files, dirs) && AllSettled(files, dirs, pending + {dir})
    requires dir !in dirs || HasEntry(files, dirs, dir)
    ensures AllSettled(files, dirs, pending)
  {
    forall d <- dirs
      ensures Settled(files, dirs, pending, d)
    {
      assert Settled(files, dirs, pending + {dir}, d);
      if dir in dirs && d <= dir {
        var p :| p in files + dirs && p != [] && Parent(p) == dir;
        assert d < p;
        if p in dirs {
          EntryBelow(files, dirs, pending, dir, p, d);
        }
      }
    }
  }

  lemma {:induction false} EntryBelow(files: set<Path>, dirs: set<Path>, pending: set<Path>, dir: Path, p: Path, d: Path)
    requires p != [] && Parent(p) == dir && d < p
    requires Settled(files, dirs, pending + {dir}, p)
    ensures Settled(files, dirs, pending, d)
  {
    if HasFileBelow(files, p) {
      var f :| f in files && p < f;
      assert d < f;
    } else {
      var e :| e in pending + {dir} && e in dirs && p <= e;
      assert e != dir && d <= e;
    }
  }

  /** The names of `paths` in this order, which are exactly the given ones, each once. */
  ghost predicate Lists(names: seq<string>, paths: seq<Path>, expected: set<Path>) {
    && (forall p :: p in paths <==> p in expected)
    && (forall i, j | 0 <= i < j < |paths| :: paths[i] != paths[j])
    && |names| == |paths| && forall i | 0 <= i < |paths| :: names[i] == Name(paths[i])
  }

  ghost predicate IsListing(names: seq<string>, expected: set<Path>) {
    exists paths :: Lists(names, paths, expected)
  }

  /** A listing is empty exactly when there is nothing to list. */
  lemma {:induction false} EmptyListing(names: seq<string>, expected: set<Path>)
    requires IsListing(names, expected)
    ensures names == [] <==> expected == {}
  {
    var paths :| Lists(names, paths, expected);
    if names == [] {
      forall p ensures p !in expected {
        assert p !in paths;
      }
    } else {
      assert paths[0] in expected;
    }
  }

  // ------------------------------------------------------------------
  // The store
  // ------------------------------------------------------------------

  class Local {
    var files: map<Path, Bytes>
    var dirs: set<Path>

    /** The tree is a tree, and every directory in it has a file below it. */
    ghost predicate Valid()
      reads this
    {
      && Tree(files.Keys, dirs) && AllSettled(files.Keys, dirs, {})
      && forall f <- files :: ProperPath(f)
    }

    constructor ()
      ensures Valid() && files == map[]
    {
      files, dirs := map[], {};
    }

    /** Fails, changing nothing, exactly when the path does not resolve or is not free. */
    method Put(path: string, data: Bytes) returns (ok: bool)
      requires Valid()
      modifies this
      ensures Valid() && files == Apply(old(files), Operation.Put(path, data))
      ensures ok == (Resolve(path).Some? && Free(old(files), Resolve(path).value))
      ensures if ok then files == old(files)[Resolve(path).value := data] else files == old(files) && dirs == old(dirs)
    {
      var resolved := Resolve(path);
      if resolved.None? {
        return false;
      }
      ResolvesToProper(path);
      var fullPath := resolved.value;
      TakenPaths(fullPath);
      if exists k | 0 < k < |fullPath| :: fullPath[..k] in files {
        return false;
      }
      if fullPath in dirs {
        return false;
      }
      ghost var files0, dirs0 := files.Keys, dirs;
      dirs := dirs + (set k | 0 < k < |fullPath| :: fullPath[..k]);
      files := files[fullPath := data];
      PutKeepsTree(files0, dirs0, fullPath, files.Keys, dirs);
      ok := true;
    }

    /** What is in the way of a put can be read off the tree. */
    lemma {:induction false} TakenPaths(path: Path)
      requires Valid() && path != []
      ensures Free(files, path) <==> !(exists k | 0 < k < |path| :: path[..k] in files) && path !in dirs
    {
      TidyTreeIsDetermined(files.Keys, dirs, path);
      forall k | 0 < k < |path| && path[..k] in files
        ensures !Free(files, path)
      {
        assert path[..k] < path;
      }
      if !Free(files, path) {
        var other :| other in files && (other < path || path < other);
        if other < path {
          assert path[..|other|] == other;
        }
      }
    }

    method CleanupEmptyDirs(start: Path, ghost pending: set<Path>)
      requires Tree(files.Keys, dirs) && AllSettled(files.Keys, dirs, pending + {start})
      modifies this`dirs
      ensures Tree(files.Keys, dirs) && AllSettled(files.Keys, dirs, pending)
    {
      var dir := start;
      while dir in dirs && dir != []
        invariant Tree(files.Keys, dirs) && AllSettled(files.Keys, dirs, pending + {dir})
        decreases |dir|
      {
        if HasEntry(files.Keys, dirs, dir) {
          break;
        }
        RmdirKeepsSettled(files.Keys, dirs, pending, dir);
        dirs := dirs - {dir};
        dir := Parent(dir);
      }
      EntrySettles(files.Keys, dirs, pending, dir);
    }

    /** An invalid path, a missing object or a directory is left alone. */
    method Delete(path: string)
      requires Valid()
      modifies this
      ensures Valid() && files == Apply(old(files), Operation.Delete(path))
      ensures Resolve(path).None? ==> files == old(files)
      ensures Resolve(path).Some? ==> Resolve(path).value !in files
      ensures forall p <- files :: p in old(files) && files[p] == old(files)[p]
      ensures forall p <- old(files) :: p in files || Resolve(path) == Some(p)
    {
      var resolved := Resolve(path);
      if resolved.None? {
        return;
      }
      var fullPath := resolved.value;
      if fullPath !in files {
        return;
      }
      UnlinkKeepsSettled(files.Keys, dirs, {}, fullPath);
      files := files - {fullPath};
      CleanupEmptyDirs(Parent(fullPath), {});
    }

    /** The directories are checked in any order. */
    method DeleteObjectsByPrefix(pathPrefix: string)
      requires Valid()
      modifies this
      ensures Valid() && files == Apply(old(files), DeleteByPrefix(pathPrefix))
    {
      var normalizedPrefix := Normalized(pathPrefix);
      if normalizedPrefix == "" {
        return;
      }
      var parentDirsToCheck := UnlinkMatching(pathPrefix);
      while parentDirsToCheck != {}
        invariant Tree(files.Keys, dirs) && AllSettled(files.Keys, dirs, parentDirsToCheck)
        invariant files == Without(old(files), pathPrefix)
        decreases |parentDirsToCheck|
      {
        var dir :| dir in parentDirsToCheck;
        ghost var others := parentDirsToCheck - {dir};
        assert parentDirsToCheck == others + {dir};
        CleanupEmptyDirs(dir, others);
        parentDirsToCheck := parentDirsToCheck - {dir};
      }
    }

    /** Deletes the matching files; the directories they were in are left to be checked. */
    method UnlinkMatching(pathPrefix: string) returns (parentDirsToCheck: set<Path>)
      requires Valid()
      modifies this`files
      ensures Tree(files.Keys, dirs) && AllSettled(files.Keys, dirs, parentDirsToCheck)
      ensures files == Without(old(files), pathPrefix)
    {
      var normalizedPrefix := Normalized(pathPrefix);
      parentDirsToCheck := {};
      var pathsToCheck := files.Keys;
      while pathsToCheck != {}
        invariant Tree(files.Keys, dirs) && AllSettled(files.Keys, dirs, parentDirsToCheck)
        invariant pathsToCheck <= files.Keys
        invariant forall p :: p in files <==> p in old(files) && (p in pathsToCheck || !Matches(p, pathPrefix))
        invariant forall p <- files :: files[p] == old(files)[p]
        decreases |pathsToCheck|
      {
        var path :| path in pathsToCheck;
        if normalizedPrefix <= Name(path) {
          UnlinkKeepsSettled(files.Keys, dirs, parentDirsToCheck, path);
          parentDirsToCheck := parentDirsToCheck + {Parent(path)};
          files := files - {path};
        }
        pathsToCheck := pathsToCheck - {path};
      }
      assert files == Without(old(files), pathPrefix);
    }

    /** The names of the objects that match, in any order, each object once. */
    method ListObjectsByPrefix(pathPrefix: string) returns (result: seq<string>)
      ensures IsListing(result, set p <- files | Matches(p, pathPrefix))
    {
      result := [];
      ghost var paths: seq<Path> := [];
      var items := files.Keys;
      while items != {}
        invariant items <= files.Keys
        invariant forall p :: p in paths <==> p in files && p !in items && Matches(p, pathPrefix)
        invariant forall i, j | 0 <= i < j < |paths| :: paths[i] != paths[j]
        invariant |result| == |paths| && forall i | 0 <= i < |paths| :: result[i] == Name(paths[i])
        decreases |items|
      {
        var path :| path in items;
        if Normalized(pathPrefix) <= Name(path) {
          result := result + [Name(path)];
          paths := paths + [path];
        }
        items := items - {path};
      }
      assert Lists(result, paths, set p <- files | Matches(p, pathPrefix));
    }
  }

  lemma {:induction false} PutKeepsTree(files: set<Path>, dirs: set<Path>, path: Path, files': set<Path>,
      dirs': set<Path>)
    requires Tree(files, dirs) && AllSettled(files, dirs, {})
    requires path != [] && path !in dirs && forall k | 0 < k < |path| :: path[..k] !in files
    requires files' == files + {path} && dirs' == dirs + (set k | 0 < k < |path| :: path[..k])
    ensures Tree(files', dirs') && AllSettled(files', dirs', {})
  {
    forall d <- dirs'
      ensures HasFileBelow(files', d) && d != [] && d !in files' && (|d| > 1 ==> Parent(d) in dirs')
    {
      if d in dirs {
        OldDirStays(files, dirs, path, d);
      } else {
        var k :| 0 < k < |path| && d == path[..k];
        NewDirSettled(files', path, k);
        assert k > 1 ==> Parent(d) == path[..k - 1];
      }
    }
  }

  lemma {:induction false} OldDirStays(files: set<Path>, dirs: set<Path>, path: Path, d: Path)
    requires AllSettled(files, dirs, {}) && d in dirs
    ensures HasFileBelow(files + {path}, d)
  {
    assert Settled(files, dirs, {}, d);
    var f :| f in files && d < f;
    assert f in files + {path};
  }

  lemma {:induction false} NewDirSettled(files: set<Path>, path: Path, k: nat)
    requires path in files && k < |path|
    ensures HasFileBelow(files, path[..k])
  {
    assert path[..k] < path;
  }

  /** Whatever ran before: a delete by a prefix leaves exactly the other objects, and a listing
      under the same prefix is then empty. */
  lemma {:induction false} NothingListedAfterDelete(ops: seq<Operation>, pathPrefix: string, names: seq<string>)
    requires Normalized(pathPrefix) != ""
    requires var objects := ApplyAll(map[], ops + [DeleteByPrefix(pathPrefix)]);
             IsListing(names, set p <- objects | Matches(p, pathPrefix))
    ensures ApplyAll(map[], ops + [DeleteByPrefix(pathPrefix)]) == Without(ApplyAll(map[], ops), pathPrefix)
    ensures names == []
  {
    var all := ops + [DeleteByPrefix(pathPrefix)];
    assert all[..|all| - 1] == ops;
    var objects := ApplyAll(map[], all);
    assert (set p <- objects | Matches(p, pathPrefix)) == {};
    EmptyListing(names, set p <- objects | Matches(p, pathPrefix));
  }

  // ------------------------------------------------------------------
  // Runs of the store
  // ------------------------------------------------------------------

  /** One operation on the store; a put that fails changes nothing. */
  method Perform(store: Local, op: Operation)
    requires store.Valid()
    modifies store
    ensures store.Valid() && store.files == Apply(old(store.files), op)
  {
    match op
    case Put(path, data) =>
      var ok := store.Put(path, data);
    case Delete(path) => store.Delete(path);
    case DeleteByPrefix(pathPrefix) => store.DeleteObjectsByPrefix(pathPrefix);
  }

  lemma {:induction false} ApplyMore(objects: map<Path, Bytes>, ops: seq<Operation>, i: nat)
    requires i < |ops|
    ensures ApplyAll(objects, ops[..i + 1]) == Apply(ApplyAll(objects, ops[..i]), ops[i])
  {
    PrefixGrows(ops, i);
  }

  /** Any run of operations leaves the store holding what the map holds after the same operations,
      in a tree that is tidy after every one of them. */
  method PerformAll(store: Local, ops: seq<Operation>)
    requires store.Valid()
    modifies store
    ensures store.Valid() && store.files == ApplyAll(old(store.files), ops)
    ensures old(store.files) == map[] ==> forall p :: p in store.files <==> Stands(ops, p)
  {
    for i := 0 to |ops|
      invariant store.Valid() && store.files == ApplyAll(old(store.files), ops[..i])
    {
      Perform(store, ops[i]);
      ApplyMore(old(store.files), ops, i);
    }
    assert ops[..|ops|] == ops;
    if old(store.files) == map[] {
      forall p ensures p in store.files <==> Stands(ops, p) {
        StoredExactly(ops, p);
      }
    }
  }

  /** On a store that has been through any run, a listing under a prefix just deleted is empty, a
      directory is left exactly if it has a file below it, and the other objects keep their bytes. */
  method RunThenClear(ops: seq<Operation>, pathPrefix: string) returns (store: Local, names: seq<string>)
    requires Normalized(pathPrefix) != ""
    ensures fresh(store) && store.Valid()
    ensures names == []
    ensures forall d :: d in store.dirs <==> d != [] && HasFileBelow(store.files.Keys, d)
    ensures forall p :: p in store.files <==> p in ApplyAll(map[], ops) && !Matches(p, pathPrefix)
    ensures forall p <- store.files :: store.files[p] == ApplyAll(map[], ops)[p]
  {
    store := new Local();
    PerformAll(store, ops);
    store.DeleteObjectsByPrefix(pathPrefix);
    names := store.ListObjectsByPrefix(pathPrefix);
    assert (set p <- store.files | Matches(p, pathPrefix)) == {};
    EmptyListing(names, set p <- store.files | Matches(p, pathPrefix));
    forall d
      ensures d in store.dirs <==> d != [] && HasFileBelow(store.files.Keys, d)
    {
      TidyTreeIsDetermined(store.files.Keys, store.dirs, d);
    }
  }
}

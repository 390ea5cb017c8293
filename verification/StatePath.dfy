/** internal/store/state_store.go: path sanitising and the per-action state files.
    A resolved path is its sequence of components; `base` is the absolute data directory. */
module StatePath {
  import opened Domain
  import opened Text

  datatype PathError = InvalidPath | PathTraversal | InvalidActionId

  // ---- path.Clean on relative slash paths ------------------------------------------------------

  function Push(stack: seq<string>, part: string): seq<string> {
    if part == "" || part == "." then stack
    else if part == ".." && stack != [] && stack[|stack| - 1] != ".." then stack[..|stack| - 1]
    else stack + [part]
  }

  function CleanParts(parts: seq<string>): seq<string> {
    if parts == [] then [] else Push(CleanParts(parts[..|parts| - 1]), parts[|parts| - 1])
  }

  function Clean(path: string): string {
    var parts := CleanParts(Split(path, '/'));
    if parts == [] then "." else Join(parts, '/')
  }

  // ---- What cleaning keeps -------------------------------------------------------------------------

  /** Where a path leads from a directory, component by component; the root is its own parent. */
  function Walk(at: seq<string>, parts: seq<string>): seq<string>
    decreases |parts|
  {
    if parts == [] then at
    else
      var p := parts[0];
      Walk(if p == "" || p == "." then at
           else if p == ".." then (if at == [] then at else at[..|at| - 1])
           else at + [p], parts[1..])
  }

  lemma {:induction false} WalkThrough(at: seq<string>, a: seq<string>, b: seq<string>)
    ensures Walk(at, a + b) == Walk(Walk(at, a), b)
    decreases |a|
  {
    if a == [] {
      assert a + b == b;
    } else {
      var p := a[0];
      assert (a + b)[1..] == a[1..] + b;
      WalkThrough(if p == "" || p == "." then at
                  else if p == ".." then (if at == [] then at else at[..|at| - 1])
                  else at + [p], a[1..], b);
    }
  }

  lemma WalkOne(at: seq<string>, p: string)
    ensures Walk(at, [p]) == if p == "" || p == "." then at
                             else if p == ".." then (if at == [] then at else at[..|at| - 1])
                             else at + [p]
  {
    assert [p][1..] == [];
  }

  /** Pushing a component onto a cleaned stack leads where the stack and then the component lead. */
  lemma PushLeads(at: seq<string>, stack: seq<string>, part: string)
    requires Shape(stack)
    ensures Walk(at, Push(stack, part)) == Walk(Walk(at, stack), [part])
  {
    var n := |stack| - 1;
    WalkOne(Walk(at, stack), part);
    if part == ".." && stack != [] && stack[n] != ".." {
      assert stack[n] in stack;
      TakeOneMore(stack, n);
      assert stack[..n + 1] == stack;
      WalkThrough(at, stack[..n], [stack[n]]);
      WalkOne(Walk(at, stack[..n]), stack[n]);
    } else if part != "" && part != "." {
      WalkThrough(at, stack, [part]);
    }
  }

  /** Cleaning a path changes nothing about where it leads, from any directory. */
  lemma {:induction false} CleaningLeadsTheSameWay(at: seq<string>, parts: seq<string>)
    requires forall p | p in parts :: '/' !in p
    ensures Walk(at, CleanParts(parts)) == Walk(at, parts)
    decreases |parts|
  {
    if parts != [] {
      var n := |parts| - 1;
      CleaningLeadsTheSameWay(at, parts[..n]);
      CleanShape(parts[..n]);
      PushLeads(at, CleanParts(parts[..n]), parts[n]);
      TakeOneMore(parts, n);
      assert parts[..n + 1] == parts;
      WalkThrough(at, parts[..n], [parts[n]]);
    }
  }

  lemma {:induction false} WalkNormal(at: seq<string>, parts: seq<string>)
    requires AllNormal(parts)
    ensures Walk(at, parts) == at + parts
    decreases |parts|
  {
    if parts != [] {
      assert parts[0] in parts;
      WalkNormal(at + [parts[0]], parts[1..]);
      Regroup(at, [parts[0]], parts[1..]);
      HeadTail(parts);
    }
  }

  // ---- sanitizeStatePath ---------------------------------------------------------------------------

  function Slashes(s: string): (t: string)
    ensures |t| == |s| && forall i | 0 <= i < |s| :: t[i] == if s[i] == '\\' then '/' else s[i]
  {
    seq(|s|, i requires 0 <= i < |s| => if s[i] == '\\' then '/' else s[i])
  }

  predicate IsLetter(c: char) { 'a' <= c <= 'z' || 'A' <= c <= 'Z' }

  function Sanitize(path: string): Result<string, PathError> {
    if '\0' in path then Err(InvalidPath)
    else if |path| >= 2 && IsLetter(path[0]) && path[1] == ':' then Err(PathTraversal)
    else if ':' in path then Err(PathTraversal)
    else
      var slashed := Slashes(path);
      if HasPrefix(slashed, "/") then Err(PathTraversal)
      else
        var cleaned := Clean(slashed);
        if cleaned == "." || cleaned == ".." || cleaned == "" then Err(InvalidPath)
        else if HasPrefix(cleaned, "../") || cleaned == ".." || Contains(cleaned, "/../") then Err(PathTraversal)
        else Ok(cleaned)
  }

  /** A file-name component that stays where it is. */
  predicate Normal(part: string) { part != "" && part != "." && part != ".." && '/' !in part }

  predicate AllNormal(parts: seq<string>) { forall p | p in parts :: Normal(p) }

  /** Characters a sanitised path never contains. */
  predicate Plain(s: string) { '\0' !in s && ':' !in s && '\\' !in s }

  /** Cleaned parts: any ".." come first, the rest is normal. */
  predicate Shape(parts: seq<string>) {
    && (forall p | p in parts :: p == ".." || Normal(p))
    && (forall i, j | 0 <= i < j < |parts| :: parts[j] == ".." ==> parts[i] == "..")
  }

  lemma {:induction false} CleanShape(parts: seq<string>)
    requires forall p | p in parts :: '/' !in p
    ensures Shape(CleanParts(parts))
    ensures forall p, c | p in CleanParts(parts) && c in p :: exists q | q in parts :: c in q
    decreases |parts|
  {
    if parts != [] {
      var n := |parts| - 1;
      CleanShape(parts[..n]);
      assert parts[n] in parts;
    }
  }

  lemma {:induction false} CleanFixed(parts: seq<string>)
    requires AllNormal(parts)
    ensures CleanParts(parts) == parts
    decreases |parts|
  {
    if parts != [] {
      var n := |parts| - 1;
      CleanFixed(parts[..n]);
      assert parts[n] in parts && parts[..n] + [parts[n]] == parts;
    }
  }

  lemma {:induction false} CharsOfJoin(parts: seq<string>, sep: char, c: char)
    requires c in Join(parts, sep)
    ensures c == sep || exists p | p in parts :: c in p
    decreases |parts|
  {
    if |parts| == 1 {
      assert parts[0] in parts;
    } else if |parts| > 1 {
      if c != sep && c !in parts[0] {
        CharsOfJoin(parts[1..], sep, c);
        var p :| p in parts[1..] && c in p;
        assert p in parts;
      } else {
        assert parts[0] in parts;
      }
    }
  }

  lemma {:induction false} CharsOfSplit(s: string, sep: char, c: char)
    ensures (exists p | p in Split(s, sep) :: c in p) ==> c in s
    decreases |s|
  {
    var i := IndexOf(s, sep);
    if i < |s| {
      CharsOfSplit(s[i + 1..], sep, c);
    }
  }

  /** A string holding "/../" has ".." among its parts. */
  lemma InnerDots(s: string)
    requires Contains(s, "/../")
    ensures ".." in Split(s, '/')
  {
    var i :| 0 <= i <= |s| - 4 && s[i..][..4] == "/../";
    var head, tail := s[..i], s[i + 4..];
    assert s == head + s[i..][..4] + tail;
    assert s == head + ['/'] + (".." + ['/'] + tail);
    SplitAppend(head, '/', ".." + ['/'] + tail);
    SplitFirst("..", '/', tail);
  }

  /** What is left of a path once it is cleaned. */
  function PartsOf(path: string): seq<string> { CleanParts(Split(Slashes(path), '/')) }

  predicate Rooted(path: string) { path != "" && (path[0] == '/' || path[0] == '\\') }

  /** The condition for acceptance, by characters and cleaned components. */
  predicate Acceptable(path: string) {
    '\0' !in path && ':' !in path && !Rooted(path) && PartsOf(path) != [] && PartsOf(path)[0] != ".."
  }

  lemma PartsShape(path: string)
    ensures Shape(PartsOf(path))
    ensures '\0' !in path && ':' !in path ==> forall p | p in PartsOf(path) :: Plain(p)
  {
    var s := Slashes(path);
    CleanShape(Split(s, '/'));
    if '\0' !in path && ':' !in path {
      assert Plain(s);
      forall p | p in PartsOf(path) ensures Plain(p) {
        CharsOfSplit(s, '/', '\0');
        CharsOfSplit(s, '/', ':');
        CharsOfSplit(s, '/', '\\');
      }
    }
  }

  lemma ShapeWithoutDots(parts: seq<string>)
    requires Shape(parts) && parts != [] && parts[0] != ".."
    ensures AllNormal(parts)
  {
  }

  /** sanitizeStatePath accepts exactly the acceptable paths, and answers their cleaned components. */
  lemma SanitizeCharacterised(path: string)
    ensures Sanitize(path).Ok? <==> Acceptable(path)
    ensures Acceptable(path) ==> Sanitize(path) == Ok(Join(PartsOf(path), '/'))
    ensures Acceptable(path) ==> AllNormal(PartsOf(path)) && Split(Sanitize(path).value, '/') == PartsOf(path)
    ensures Sanitize(path) == Err(InvalidPath) <==>
              '\0' in path || (':' !in path && !Rooted(path) && (PartsOf(path) == [] || PartsOf(path) == [".."]))
  {
    var parts := PartsOf(path);
    PartsShape(path);
    if '\0' !in path && ':' !in path && !Rooted(path) && parts != [] {
      var cleaned := Join(parts, '/');
      SplitJoin(parts, '/');
      assert Clean(Slashes(path)) == cleaned;
      if parts[0] == ".." {
        DotsFirst(parts);
      } else {
        ShapeWithoutDots(parts);
        assert ".." !in parts;
        if Contains(cleaned, "/../") { InnerDots(cleaned); }
        if HasPrefix(cleaned, "../") { DotsPrefix(cleaned); }
        NormalJoin(parts);
      }
    }
  }

  lemma DotsFirst(parts: seq<string>)
    requires parts != [] && parts[0] == ".."
    ensures Join(parts, '/') == ".." || HasPrefix(Join(parts, '/'), "../")
  {
  }

  lemma DotsPrefix(s: string)
    requires HasPrefix(s, "../")
    ensures ".." in Split(s, '/')
  {
    assert s == ".." + ['/'] + s[3..];
    SplitFirst("..", '/', s[3..]);
  }

  lemma NormalJoin(parts: seq<string>)
    requires parts != [] && AllNormal(parts)
    ensures Join(parts, '/') != "" && Join(parts, '/') != "." && Join(parts, '/') != ".."
  {
    assert parts[0] in parts;
    if |parts| > 1 {
      assert '/' in Join(parts, '/');
    }
  }

  /** What sanitizeStatePath accepts is a non-empty relative path with no empty, "." or ".." component,
      no NUL, colon or backslash, and sanitising it again changes nothing. */
  lemma SanitizeIsIdempotent(path: string)
    requires Sanitize(path).Ok?
    ensures var c := Sanitize(path).value;
            c != "" && c[0] != '/' && Plain(c) && AllNormal(Split(c, '/')) && Sanitize(c) == Ok(c)
  {
    SanitizeCharacterised(path);
    PartsShape(path);
    var parts := PartsOf(path);
    var c := Sanitize(path).value;
    NormalJoin(parts);
    forall x | x in c ensures x != '\0' && x != ':' && x != '\\' {
      CharsOfJoin(parts, '/', x);
    }
    assert parts[0] in parts && c[0] == parts[0][0];
    assert forall i | 0 <= i < |c| :: c[i] in c;
    assert Slashes(c) == c;
    CleanFixed(parts);
    SanitizeCharacterised(c);
  }

  // ---- resolveStatePath ---------------------------------------------------------------------------------

  type Path = seq<string>

  predicate ActionIdOk(id: string) {
    var t := TrimSpace(id);
    t != "" && '/' !in t && '\\' !in t && '.' !in t && '\0' !in t
  }

  /** An id is refused exactly when it is blank or one of these four characters is in it. */
  lemma ActionIdRefusedIff(id: string)
    ensures !ActionIdOk(id) <==> TrimSpace(id) == "" || '/' in id || '\\' in id || '.' in id || '\0' in id
  {
    TrimKeeps(id, '/');
    TrimKeeps(id, '\\');
    TrimKeeps(id, '.');
    TrimKeeps(id, '\0');
  }

  function StateDir(base: Path, action: string): Path { base + ["actions", action, "state"] }

  /** The last check rejects any relative path that starts with two dots, even a name such as "..foo". */
  function Resolve(base: Path, action: string, path: string): Result<Path, PathError> {
    if !ActionIdOk(action) then Err(InvalidActionId)
    else match Sanitize(path)
      case Err(e) => Err(e)
      case Ok(clean) =>
        if HasPrefix(clean, "..") then Err(PathTraversal) else Ok(StateDir(base, action) + Split(clean, '/'))
  }

  lemma ActionErrorIff(base: Path, action: string, path: string)
    ensures Resolve(base, action, path) == Err(InvalidActionId) <==> !ActionIdOk(action)
  {
  }

  /** A resolved path lies strictly inside its action's state directory, by normal components only, and is
      where the path given leads from there, backslashes read as slashes. */
  lemma ResolvedInside(base: Path, action: string, path: string)
    requires Resolve(base, action, path).Ok?
    ensures var p := Resolve(base, action, path).value;
            && StateDir(base, action) < p && AllNormal(p[|StateDir(base, action)|..])
            && p == Walk(base + ["actions", action, "state"], Split(Slashes(path), '/'))
  {
    SanitizeIsIdempotent(path);
    SanitizeCharacterised(path);
    var dir := base + ["actions", action, "state"];
    CleaningLeadsTheSameWay(dir, Split(Slashes(path), '/'));
    WalkNormal(dir, PartsOf(path));
  }

  /** Two accepted paths of one action resolve alike exactly when they clean alike; paths of
      different actions never do. */
  lemma ResolveSeparates(base: Path, a: string, p: string, b: string, q: string)
    requires Resolve(base, a, p).Ok? && Resolve(base, b, q).Ok?
    ensures Resolve(base, a, p) == Resolve(base, b, q) <==> a == b && Sanitize(p) == Sanitize(q)
  {
    var x, y := Resolve(base, a, p).value, Resolve(base, b, q).value;
    var n := |base|;
    assert x[n + 1] == a && y[n + 1] == b;
    assert x[n + 3..] == Split(Sanitize(p).value, '/') && y[n + 3..] == Split(Sanitize(q).value, '/');
    JoinSplit(Sanitize(p).value, '/');
    JoinSplit(Sanitize(q).value, '/');
  }

  /** The exact acceptance of resolveStatePath. */
  lemma ResolveAccepts(base: Path, action: string, path: string)
    ensures Resolve(base, action, path).Ok? <==>
              ActionIdOk(action) && Acceptable(path) && !HasPrefix(PartsOf(path)[0], "..")
  {
    SanitizeCharacterised(path);
    if Acceptable(path) {
      var parts := PartsOf(path);
      assert parts[0] in parts && Normal(parts[0]);
      if |parts| > 1 { assert Join(parts, '/') == parts[0] + ['/'] + Join(parts[1..], '/'); }
    }
  }

  // ---- The state files ------------------------------------------------------------------------------------

  /** What reading a state path answers. */
  function Read(files: map<Path, string>, base: Path, action: string, path: string): Option<string> {
    match Resolve(base, action, path)
    case Err(_) => None
    case Ok(p) => if p in files then Some(files[p]) else None
  }

  predicate Blocked(files: map<Path, string>, dir: Path) { exists n | 0 <= n <= |dir| :: dir[..n] in files }

  function Ancestors(dir: Path): set<Path> { set n | 0 <= n <= |dir| :: dir[..n] }

  lemma ActionComponent(base: Path, action: string, path: string)
    requires Resolve(base, action, path).Ok?
    ensures var t := Resolve(base, action, path).value; |t| > |base| + 3 && t[|base| + 1] == action
  {
  }

  /** Where CreateTemp puts its file: next to the target. */
  function TempPath(base: Path, action: string, path: string, tmp: string): Path
    requires Resolve(base, action, path).Ok?
  {
    var t := Resolve(base, action, path).value;
    t[..|t| - 1] + [tmp]
  }

  /** A write stores its target, or changes nothing, or leaves its temp file behind. */
  predicate Written(before: map<Path, string>, after: map<Path, string>, base: Path, action: string, path: string,
                    data: string, tmp: string, partial: string, ok: bool)
  {
    if ok then Resolve(base, action, path).Ok? && after == before[Resolve(base, action, path).value := data]
    else
      || after == before
      || (Resolve(base, action, path).Ok? && after == before[TempPath(base, action, path, tmp) := partial])
  }

  /** A write for one action, complete or interrupted, changes no read for another action. */
  lemma WritesStayInside(before: map<Path, string>, after: map<Path, string>, base: Path, action: string, path: string,
                         data: string, tmp: string, partial: string, ok: bool, other: string, q: string)
    requires Written(before, after, base, action, path, data, tmp, partial, ok) && other != action
    ensures Read(after, base, other, q) == Read(before, base, other, q)
  {
    if Resolve(base, action, path).Ok? && Resolve(base, other, q).Ok? {
      ActionComponent(base, action, path);
      ActionComponent(base, other, q);
      assert TempPath(base, action, path, tmp)[|base| + 1] == action;
    }
  }

  /** After a successful write, reading an accepted path sees the data exactly when it cleans to the
      written path; every other path reads as before. */
  lemma ReadAfterWrite(before: map<Path, string>, after: map<Path, string>, base: Path, action: string, path: string,
                       data: string, tmp: string, partial: string, q: string)
    requires Written(before, after, base, action, path, data, tmp, partial, true)
    requires Resolve(base, action, q).Ok?
    ensures Read(after, base, action, q)
            == if Sanitize(q) == Sanitize(path) then Some(data) else Read(before, base, action, q)
  {
    ResolveSeparates(base, action, q, action, path);
  }

  // ---- Files and directories ------------------------------------------------------------------------------

  ghost predicate TreeOk(files: map<Path, string>, dirs: set<Path>) {
    forall f | f in files :: f != [] && Ancestors(f[..|f| - 1]) <= dirs && f !in dirs
  }

  /** The path is accepted, no file is where its directory should be, and no directory where it should be. */
  predicate CanWrite(files: map<Path, string>, dirs: set<Path>, base: Path, action: string, path: string) {
    Resolve(base, action, path).Ok? &&
    var t := Resolve(base, action, path).value;
    t != [] && !Blocked(files, t[..|t| - 1]) && t !in dirs + Ancestors(t[..|t| - 1])
  }

  lemma MakeParents(files: map<Path, string>, dirs: set<Path>, parent: Path)
    requires TreeOk(files, dirs) && !Blocked(files, parent)
    ensures TreeOk(files, dirs + Ancestors(parent)) && forall p | p in Ancestors(parent) :: |p| <= |parent|
  {
  }

  lemma StoreInTree(files: map<Path, string>, dirs: set<Path>, parent: Path, name: string, data: string)
    requires TreeOk(files, dirs) && Ancestors(parent) <= dirs && parent + [name] !in dirs
    ensures TreeOk(files[parent + [name] := data], dirs)
  {
    assert (parent + [name])[..|parent|] == parent;
  }

  /** A write that can succeed clashes with no stored file: none is a directory on its way, and it is
      no directory on the way of any. */
  lemma NoFileInTheWay(files: map<Path, string>, dirs: set<Path>, base: Path, action: string, path: string, f: Path)
    requires TreeOk(files, dirs) && CanWrite(files, dirs, base, action, path) && f in files
    ensures var t := Resolve(base, action, path).value; !(f < t) && !(t < f)
  {
    var t := Resolve(base, action, path).value;
    PrefixIsAncestor(f, t);
    PrefixIsAncestor(t, f);
  }

  /** A write can succeed exactly when its path is accepted, no stored file is a directory on its way, and
      its target is no directory itself. */
  lemma CanWriteIff(files: map<Path, string>, dirs: set<Path>, base: Path, action: string, path: string)
    requires TreeOk(files, dirs)
    ensures CanWrite(files, dirs, base, action, path) <==>
              && Resolve(base, action, path).Ok?
              && Resolve(base, action, path).value !in dirs
              && forall f | f in files :: !(f < Resolve(base, action, path).value)
  {
    if Resolve(base, action, path).Ok? {
      ActionComponent(base, action, path);
      BlockedIff(files, Resolve(base, action, path).value);
    }
  }

  lemma BlockedIff(files: map<Path, string>, t: Path)
    requires t != []
    ensures Blocked(files, t[..|t| - 1]) <==> exists f | f in files :: f < t
    ensures t !in Ancestors(t[..|t| - 1])
  {
    var parent := t[..|t| - 1];
    forall f | f in files && f < t ensures Blocked(files, parent) {
      PrefixIsAncestor(f, t);
      assert parent[..|f|] in files;
    }
    if Blocked(files, parent) {
      var n :| 0 <= n <= |parent| && parent[..n] in files;
      assert parent[..n] < t;
    }
    forall p | p in Ancestors(parent) ensures |p| < |t| { }
  }

  lemma PrefixIsAncestor(p: Path, q: Path)
    requires q != []
    ensures p < q ==> p in Ancestors(q[..|q| - 1]) && q[..|q| - 1][..|p|] == p
  {
    if p < q { assert q[..|q| - 1][..|p|] == p; }
  }

  class StateStore {
    const base: Path
    var files: map<Path, string>
    var dirs: set<Path>

    /** Every stored file lies in a directory, all the way up, and is not one itself. */
    ghost predicate Valid()
      reads this
    {
      TreeOk(files, dirs)
    }

    constructor (base: Path)
      ensures Valid() && this.base == base && files == map[] && dirs == {}
    {
      this.base := base;
      files, dirs := map[], {};
    }

    /** Resolution, then the write. `failAt` is the failing operation: 0 mkdir, 1 create, 2 write, 3 sync,
        4 close, 5 rename, 6 none; a failed clean-up leaves `partial` behind. A name CreateTemp answers is
        not in use. */
    method WriteState(action: string, path: string, data: string, tmp: string,
                      failAt: nat, cleans: bool, partial: string)
      returns (ok: bool)
      requires Valid()
      requires Resolve(base, action, path).Ok? ==> TempPath(base, action, path, tmp) !in files.Keys + dirs
      modifies this`files, this`dirs
      ensures Valid() && old(dirs) <= dirs
      ensures ok <==> failAt > 5 && CanWrite(old(files), old(dirs), base, action, path)
      ensures Written(old(files), files, base, action, path, data, tmp, partial, ok)
    {
      var r := Resolve(base, action, path);
      if r.Err? { return false; }
      ActionComponent(base, action, path);
      ok := WriteFile(r.value, data, tmp, failAt, cleans, partial);
    }

    /** Temp file in the target's directory, then rename. */
    method WriteFile(target: Path, data: string, tmp: string, failAt: nat, cleans: bool, partial: string)
      returns (ok: bool)
      requires Valid() && target != [] && target[..|target| - 1] + [tmp] !in files.Keys + dirs
      modifies this`files, this`dirs
      ensures Valid() && old(dirs) <= dirs
      ensures var parent := target[..|target| - 1];
              && (ok <==> failAt > 5 && !Blocked(old(files), parent) && target !in old(dirs) + Ancestors(parent))
              && (ok ==> files == old(files)[target := data])
              && (!ok ==> files == old(files) || files == old(files)[parent + [tmp] := partial])
    {
      var parent, name := target[..|target| - 1], target[|target| - 1];
      if failAt == 0 || Blocked(files, parent) { return false; }
      MakeParents(files, dirs, parent);
      dirs := dirs + Ancestors(parent);
      if failAt == 1 { return false; }
      assert target == parent + [name];
      if failAt <= 5 || target in dirs {
        if !cleans {
          StoreInTree(files, dirs, parent, tmp, partial);
          files := files[parent + [tmp] := partial];
        }
        return false;
      }
      StoreInTree(files, dirs, parent, name, data);
      files := files[target := data];
      return true;
    }

    method ReadState(action: string, path: string) returns (r: Option<string>)
      ensures r == Read(files, base, action, path)
    {
      var p := Resolve(base, action, path);
      if p.Err? || p.value !in files { return None; }
      return Some(files[p.value]);
    }
  }
}

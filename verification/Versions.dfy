/** Version creation over disk and database: internal/action/service.go and
    internal/store/source_artifact_store.go. A directory is the map from slash paths to contents. */
module Versions {
  import opened Domain
  import opened Text
  import StatePath

  type Bundle = map<string, string>

  const MAX_SOURCE_BYTES := 20 * 1024 * 1024

  // ---- Version ids -----------------------------------------------------------------------------

  function Digit(d: nat): char
    requires d < 10
  {
    "0123456789"[d]
  }

  function Decimal(n: nat): (s: string)
    ensures |s| >= 1 && forall c | c in s :: '0' <= c <= '9'
  {
    if n < 10 then [Digit(n)] else Decimal(n / 10) + [Digit(n % 10)]
  }

  function Zeros(k: nat): (s: string)
    ensures |s| == k && forall c | c in s :: c == '0'
  {
    if k == 0 then "" else Zeros(k - 1) + "0"
  }

  /** The %06d verb. */
  function SixDigits(n: nat): (s: string)
    ensures forall c | c in s :: '0' <= c <= '9'
  {
    var d := Decimal(n);
    if |d| < 6 then Zeros(6 - |d|) + d else d
  }

  function VersionId(action: string, n: nat): string { "ver_" + action + "_" + SixDigits(n) }

  function ValueOf(s: string): nat {
    if s == "" then 0
    else ValueOf(s[..|s| - 1]) * 10 + if '0' <= s[|s| - 1] <= '9' then (s[|s| - 1] - '0') as nat else 0
  }

  lemma {:induction false} ValueOfDecimal(n: nat)
    ensures ValueOf(Decimal(n)) == n
    decreases n
  {
    if n >= 10 {
      ValueOfDecimal(n / 10);
      assert Decimal(n)[..|Decimal(n)| - 1] == Decimal(n / 10);
    }
  }

  lemma {:induction false} ValueOfZeros(k: nat, s: string)
    ensures ValueOf(Zeros(k) + s) == ValueOf(s)
    decreases k + |s|
  {
    var t := Zeros(k) + s;
    if s != "" {
      assert t[..|t| - 1] == Zeros(k) + s[..|s| - 1];
      ValueOfZeros(k, s[..|s| - 1]);
    } else if k > 0 {
      assert t == Zeros(k) && t[..|t| - 1] == Zeros(k - 1) + "";
      ValueOfZeros(k - 1, "");
    }
  }

  /** Padding to six digits keeps the value, so it keeps numbers apart. */
  lemma ValueOfSixDigits(n: nat)
    ensures ValueOf(SixDigits(n)) == n
  {
    var d := Decimal(n);
    ValueOfDecimal(n);
    if |d| < 6 { ValueOfZeros(6 - |d|, d); }
  }

  lemma LastMark(s: string, p: nat, q: nat)
    requires p < |s| && s[p] == '_' && (forall i | p < i < |s| :: s[i] != '_')
    requires q < |s| && s[q] == '_' && (forall i | q < i < |s| :: s[i] != '_')
    ensures p == q
  {
  }

  lemma SameTail(a: string, x: string, b: string, y: string)
    requires a + "_" + x == b + "_" + y && '_' !in x && '_' !in y
    ensures a == b && x == y
  {
    var s := a + "_" + x;
    assert s == b + "_" + y;
    LastMark(s, |a|, |b|);
    assert s[..|a|] == a && s[|a| + 1..] == x && s[..|b|] == b && s[|b| + 1..] == y;
  }

  /** Version ids are unique across all actions and numbers, whatever the action ids look like. */
  lemma VersionIdInjective(a: string, n: nat, b: string, m: nat)
    requires VersionId(a, n) == VersionId(b, m)
    ensures a == b && n == m
  {
    SameTail("ver_" + a, SixDigits(n), "ver_" + b, SixDigits(m));
    assert ("ver_" + a)[4..] == a && ("ver_" + b)[4..] == b;
    ValueOfSixDigits(n);
    ValueOfSixDigits(m);
  }

  // ---- Staging a bundle ----------------------------------------------------------------------------

  /** The bundle holds every file under its cleaned name, and nothing else. */
  predicate HoldsCleaned(files: Bundle, bundle: Bundle) {
    && (forall k | k in files :: StatePath.Sanitize(k).Ok? && StatePath.Sanitize(k).value in bundle)
    && (forall c | c in bundle :: exists k | k in files :: StatePath.Sanitize(k) == Ok(c) && files[k] == bundle[c])
  }

  /** Names that stay distinct after cleaning determine the bundle. */
  lemma DistinctNamesDetermineBundle(files: Bundle, bundle: Bundle, other: Bundle)
    requires HoldsCleaned(files, bundle) && HoldsCleaned(files, other)
    requires forall j, k | j in files && k in files :: StatePath.Sanitize(j) == StatePath.Sanitize(k) ==> j == k
    ensures bundle == other
    ensures forall k | k in files :: bundle[StatePath.Sanitize(k).value] == files[k]
  {
    forall c | c in bundle ensures c in other && other[c] == bundle[c] {
      var k :| k in files && StatePath.Sanitize(k) == Ok(c) && files[k] == bundle[c];
      var l :| l in files && StatePath.Sanitize(l) == Ok(c) && files[l] == other[c];
      assert k == l;
    }
    forall c | c in other ensures c in bundle {
      var k :| k in files && StatePath.Sanitize(k) == Ok(c) && files[k] == other[c];
    }
    forall k | k in files ensures bundle[StatePath.Sanitize(k).value] == files[k] {
      var l :| l in files && StatePath.Sanitize(l) == Ok(StatePath.Sanitize(k).value)
               && files[l] == bundle[StatePath.Sanitize(k).value];
      assert k == l;
    }
  }

  /** One name is a directory on the way to the other. */
  predicate Under(c: string, d: string) { HasPrefix(d, c + "/") }

  predicate Clash(c: string, d: string) { Under(c, d) || Under(d, c) }

  /** Some name cannot be cleaned, or two cleaned names need one path as both file and directory. */
  predicate Unstageable(files: Bundle) {
    || (exists k | k in files :: StatePath.Sanitize(k).Err?)
    || (exists j, k | j in files && k in files ::
          StatePath.Sanitize(j).Ok? && StatePath.Sanitize(k).Ok?
          && Clash(StatePath.Sanitize(j).value, StatePath.Sanitize(k).value))
  }

  lemma {:induction false} JoinMore(a: seq<string>, b: seq<string>)
    requires a != [] && b != []
    ensures Join(a + b, '/') == Join(a, '/') + ['/'] + Join(b, '/')
    decreases |a|
  {
    assert (a + b)[1..] == a[1..] + b;
    if |a| > 1 { JoinMore(a[1..], b); }
  }

  lemma UnderContinues(a: seq<string>, b: seq<string>)
    requires a != [] && b != [] && StatePath.AllNormal(a) && StatePath.AllNormal(b)
    requires Under(Join(a, '/'), Join(b, '/'))
    ensures a < b
  {
    var x, y := Join(a, '/'), Join(b, '/');
    var rest := y[|x| + 1..];
    assert y == x + ['/'] + rest;
    SplitAppend(x, '/', rest);
    SplitJoin(a, '/');
    SplitJoin(b, '/');
  }

  lemma ContinuedIsUnder(a: seq<string>, b: seq<string>)
    requires a != [] && a < b
    ensures Under(Join(a, '/'), Join(b, '/'))
  {
    JoinMore(a, b[|a|..]);
    TakeAndDrop(b, |a|);
    assert b[..|a|] == a;
  }

  /** One joined name continues another with a slash exactly when its components continue the other's. */
  lemma UnderIsPrefix(a: seq<string>, b: seq<string>)
    requires a != [] && b != [] && StatePath.AllNormal(a) && StatePath.AllNormal(b)
    ensures Under(Join(a, '/'), Join(b, '/')) <==> a < b
  {
    if Under(Join(a, '/'), Join(b, '/')) { UnderContinues(a, b); }
    if a < b { ContinuedIsUnder(a, b); }
  }

  /** A bundle cannot be staged exactly when some name is not acceptable, or the components of one name
      begin another one: then one path would have to be a file and a directory. */
  lemma UnstageableIff(files: Bundle)
    ensures Unstageable(files) <==>
              || (exists k | k in files :: !StatePath.Acceptable(k))
              || (exists j, k | j in files && k in files :: StatePath.PartsOf(j) < StatePath.PartsOf(k))
  {
    forall k | k in files ensures StatePath.Sanitize(k).Ok? <==> StatePath.Acceptable(k) {
      StatePath.SanitizeCharacterised(k);
    }
    forall j, k | j in files && k in files && StatePath.Acceptable(j) && StatePath.Acceptable(k)
      ensures Under(StatePath.Sanitize(j).value, StatePath.Sanitize(k).value)
              <==> StatePath.PartsOf(j) < StatePath.PartsOf(k)
    {
      StatePath.SanitizeCharacterised(j);
      StatePath.SanitizeCharacterised(k);
      UnderIsPrefix(StatePath.PartsOf(j), StatePath.PartsOf(k));
    }
  }

  /** The write loop of StageSourceBundle, with the name order left open; `fails` is any disk failure. */
  method StageSourceBundle(files: Bundle, fails: bool) returns (r: Option<Bundle>)
    ensures r.None? <==> fails || Unstageable(files)
    ensures r.Some? ==> HoldsCleaned(files, r.value)
  {
    if fails { return None; }
    var bundle: Bundle := map[];
    var todo := files.Keys;
    while todo != {}
      invariant todo <= files.Keys && HoldsCleaned(files - todo, bundle) && ClashFree(bundle.Keys)
      decreases todo
    {
      var name :| name in todo;
      var clean := StatePath.Sanitize(name);
      if clean.Err? { return None; }
      if exists c | c in bundle :: Clash(c, clean.value) {
        ClashIsUnstageable(files, todo, bundle, name);
        return None;
      }
      StageStep(files, todo, bundle, name);
      bundle := bundle[clean.value := files[name]];
      todo := todo - {name};
    }
    assert files - todo == files;
    StagedIsStageable(files, bundle);
    return Some(bundle);
  }

  predicate ClashFree(names: set<string>) { forall c, d | c in names && d in names :: !Clash(c, d) }

  lemma ClashIsUnstageable(files: Bundle, todo: set<string>, bundle: Bundle, name: string)
    requires name in files && StatePath.Sanitize(name).Ok? && HoldsCleaned(files - todo, bundle)
    requires exists c | c in bundle :: Clash(c, StatePath.Sanitize(name).value)
    ensures Unstageable(files)
  {
    var c :| c in bundle && Clash(c, StatePath.Sanitize(name).value);
    var j :| j in files - todo && StatePath.Sanitize(j) == Ok(c);
    assert j in files && StatePath.Sanitize(j).Ok? && StatePath.Sanitize(name).Ok?;
  }

  lemma StageStep(files: Bundle, todo: set<string>, bundle: Bundle, name: string)
    requires name in todo && todo <= files.Keys && StatePath.Sanitize(name).Ok?
    requires HoldsCleaned(files - todo, bundle) && ClashFree(bundle.Keys)
    requires forall c | c in bundle :: !Clash(c, StatePath.Sanitize(name).value)
    ensures var after := bundle[StatePath.Sanitize(name).value := files[name]];
            HoldsCleaned(files - (todo - {name}), after) && ClashFree(after.Keys)
  {
    var clean := StatePath.Sanitize(name).value;
    var rest, after := files - (todo - {name}), bundle[clean := files[name]];
    forall c | c in after ensures exists k | k in rest :: StatePath.Sanitize(k) == Ok(c) && rest[k] == after[c] {
      if c == clean {
        assert name in rest && rest[name] == after[c];
      } else {
        var k :| k in files - todo && StatePath.Sanitize(k) == Ok(c) && (files - todo)[k] == bundle[c];
        assert k in rest && rest[k] == after[c];
      }
    }
    forall c, d | c in after && d in after ensures !Clash(c, d) {
      if c == clean && d != clean { assert !Clash(d, clean); }
    }
  }

  lemma StagedIsStageable(files: Bundle, bundle: Bundle)
    requires HoldsCleaned(files, bundle) && ClashFree(bundle.Keys)
    ensures !Unstageable(files)
  {
  }

  // ---- Rows, directories and the creation protocol -----------------------------------------------------

  datatype Row = Row(action: string, number: nat)

  datatype Dir = Dir(action: string, name: string)

  /** A creation under the action's mutex, after its version number has been read. */
  datatype Job =
    | Numbered(n: nat, files: Bundle)
    | Staged(n: nat, files: Bundle, token: string)
    | Cleared(n: nat, files: Bundle, token: string)   // old destination removed
    | Committed(n: nat, files: Bundle)                // renamed into place
    | RollingBack(n: nat)                             // the insert failed
    | Discarding(token: string)                       // the rename failed

  /** `request` and `used` are history: the files each stored version was created from, and the
      action ids handed out so far. */
  datatype World = World(
    actions: set<string>, rows: map<string, Row>, dirs: map<Dir, Bundle>, staging: map<Dir, Bundle>,
    jobs: map<string, Job>, request: map<string, Bundle>, used: set<string>)

  const Fresh := World({}, map[], map[], map[], map[], map[], {})

  datatype Event =
    | AddAction(a: string)
    | DropAction(a: string)
    | Lock(a: string, n: nat, files: Bundle)
    | Stage(a: string, token: string, bundle: Bundle)
    | StageFails(a: string, token: string, left: Option<Bundle>)
    | Clear(a: string, left: Option<Bundle>)
    | Rename(a: string, ok: bool)
    | Insert(a: string, ok: bool)
    | RollBack(a: string, left: Option<Bundle>)
    | Discard(a: string, left: Option<Bundle>)
    | Crash
    | CleanOrphan(a: string, name: string, left: Option<Bundle>)

  /** GetNextVersionNumber: one more than the action's largest number, or 1. */
  predicate IsNextNumber(rows: map<string, Row>, a: string, n: nat) {
    && n >= 1
    && (forall v | v in rows && rows[v].action == a :: rows[v].number < n)
    && (n > 1 ==> exists v | v in rows :: rows[v] == Row(a, n - 1))
  }

  /** An unlink that fails part-way leaves some rest behind. */
  function Removed(dirs: map<Dir, Bundle>, d: Dir, left: Option<Bundle>): map<Dir, Bundle> {
    if left.Some? && d in dirs then dirs[d := left.value] else dirs - {d}
  }

  predicate CanInsert(w: World, a: string, n: nat) {
    a in w.actions && VersionId(a, n) !in w.rows && forall v | v in w.rows :: w.rows[v] != Row(a, n)
  }

  predicate IsOrphan(rows: map<string, Row>, a: string, name: string) {
    name !in rows || rows[name].action != a
  }

  predicate Enabled(w: World, e: Event) {
    match e
    case AddAction(a) => a !in w.used
    case DropAction(a) => a in w.actions
    case Lock(a, n, files) => a in w.used && a !in w.jobs && files != map[] && IsNextNumber(w.rows, a, n)
    case Stage(a, token, bundle) =>
      a in w.jobs && w.jobs[a].Numbered? && Dir(a, token) !in w.staging && HoldsCleaned(w.jobs[a].files, bundle)
    case StageFails(a, token, _) => a in w.jobs && w.jobs[a].Numbered? && Dir(a, token) !in w.staging
    case Clear(a, _) => a in w.jobs && w.jobs[a].Staged?
    case Rename(a, ok) =>
      a in w.jobs && w.jobs[a].Cleared?
      && (ok ==> Dir(a, VersionId(a, w.jobs[a].n)) !in w.dirs && Dir(a, w.jobs[a].token) in w.staging)
    case Insert(a, ok) => a in w.jobs && w.jobs[a].Committed? && (ok ==> CanInsert(w, a, w.jobs[a].n))
    case RollBack(a, _) => a in w.jobs && w.jobs[a].RollingBack?
    case Discard(a, _) => a in w.jobs && w.jobs[a].Discarding?
    case Crash => true
    case CleanOrphan(a, name, _) => a !in w.jobs && Dir(a, name) in w.dirs && IsOrphan(w.rows, a, name)
  }

  function Apply(w: World, e: Event): World
    requires Enabled(w, e)
  {
    match e
    case AddAction(a) => w.(actions := w.actions + {a}, used := w.used + {a})
    case DropAction(a) =>
      w.(actions := w.actions - {a}, rows := map v | v in w.rows && w.rows[v].action != a :: w.rows[v])
    case Lock(a, n, files) => w.(jobs := w.jobs[a := Numbered(n, files)])
    case Stage(a, token, bundle) =>
      w.(jobs := w.jobs[a := Staged(w.jobs[a].n, w.jobs[a].files, token)],
         staging := w.staging[Dir(a, token) := bundle])
    case StageFails(a, token, left) =>
      w.(jobs := w.jobs - {a}, staging := if left.Some? then w.staging[Dir(a, token) := left.value] else w.staging)
    case Clear(a, left) =>
      var j := w.jobs[a];
      w.(jobs := w.jobs[a := Cleared(j.n, j.files, j.token)], dirs := Removed(w.dirs, Dir(a, VersionId(a, j.n)), left))
    case Rename(a, ok) =>
      var j := w.jobs[a];
      if ok then
        w.(jobs := w.jobs[a := Committed(j.n, j.files)], staging := w.staging - {Dir(a, j.token)},
           dirs := w.dirs[Dir(a, VersionId(a, j.n)) := w.staging[Dir(a, j.token)]])
      else w.(jobs := w.jobs[a := Discarding(j.token)])
    case Insert(a, ok) =>
      var j := w.jobs[a];
      if ok then
        w.(jobs := w.jobs - {a}, rows := w.rows[VersionId(a, j.n) := Row(a, j.n)],
           request := w.request[VersionId(a, j.n) := j.files])
      else w.(jobs := w.jobs[a := RollingBack(j.n)])
    case RollBack(a, left) =>
      w.(jobs := w.jobs - {a}, dirs := Removed(w.dirs, Dir(a, VersionId(a, w.jobs[a].n)), left))
    case Discard(a, left) =>
      w.(jobs := w.jobs - {a}, staging := Removed(w.staging, Dir(a, w.jobs[a].token), left))
    case Crash => w.(jobs := map[])
    case CleanOrphan(a, name, left) => w.(dirs := Removed(w.dirs, Dir(a, name), left))
  }

  // ---- The invariant --------------------------------------------------------------------------------------

  /** A version row's id, directory and contents. */
  predicate RowOk(w: World, v: string) {
    v in w.rows ==>
      var r := w.rows[v];
      && r.number >= 1 && r.action in w.actions && v == VersionId(r.action, r.number)
      && Dir(r.action, v) in w.dirs && v in w.request && HoldsCleaned(w.request[v], w.dirs[Dir(r.action, v)])
  }

  /** Numbers have no gaps below. */
  predicate NoGap(w: World, v: string) {
    v in w.rows && w.rows[v].number > 1 ==>
      VersionId(w.rows[v].action, w.rows[v].number - 1) in w.rows
  }

  /** The number the creation will store is still free, and next unless the action is gone. */
  predicate NumberOk(w: World, a: string) {
    a in w.jobs && !w.jobs[a].Discarding? ==>
      var n := w.jobs[a].n;
      n >= 1 && VersionId(a, n) !in w.rows && (a in w.actions ==> IsNextNumber(w.rows, a, n))
  }

  /** The files are where the creation left them. */
  predicate FilesOk(w: World, a: string) {
    a in w.jobs ==>
      var j := w.jobs[a];
      && ((j.Staged? || j.Cleared?) ==>
            Dir(a, j.token) in w.staging && HoldsCleaned(j.files, w.staging[Dir(a, j.token)]))
      && (j.Committed? ==> Dir(a, VersionId(a, j.n)) in w.dirs
                           && HoldsCleaned(j.files, w.dirs[Dir(a, VersionId(a, j.n))]))
  }

  predicate JobOk(w: World, a: string) {
    (a in w.jobs ==> a in w.used) && NumberOk(w, a) && FilesOk(w, a)
  }

  predicate Inv(w: World) {
    && w.actions <= w.used
    && (forall v | v in w.rows :: RowOk(w, v))
    && (forall v | v in w.rows :: NoGap(w, v))
    && (forall a | a in w.jobs :: JobOk(w, a))
  }

  /** The next number names no stored version. */
  lemma NextIdIsFree(w: World, a: string, n: nat)
    requires Inv(w) && IsNextNumber(w.rows, a, n)
    ensures VersionId(a, n) !in w.rows
  {
    if VersionId(a, n) in w.rows {
      var v := VersionId(a, n);
      assert RowOk(w, v);
      VersionIdInjective(a, n, w.rows[v].action, w.rows[v].number);
    }
  }

  /** The version directory a step may change. */
  function TouchedDir(w: World, e: Event): Option<Dir>
    requires Enabled(w, e)
  {
    match e
    case Clear(a, _) => Some(Dir(a, VersionId(a, w.jobs[a].n)))
    case Rename(a, ok) => if ok then Some(Dir(a, VersionId(a, w.jobs[a].n))) else None
    case RollBack(a, _) => Some(Dir(a, VersionId(a, w.jobs[a].n)))
    case CleanOrphan(a, name, _) => Some(Dir(a, name))
    case _ => None
  }

  lemma OtherDirsStay(w: World, e: Event, d: Dir)
    requires Enabled(w, e) && TouchedDir(w, e) != Some(d)
    ensures d in w.dirs ==> d in Apply(w, e).dirs && Apply(w, e).dirs[d] == w.dirs[d]
  {
  }

  lemma TouchedIsOrphan(w: World, e: Event)
    requires Enabled(w, e) && forall a | a in w.jobs :: JobOk(w, a)
    ensures TouchedDir(w, e).Some? ==> IsOrphan(w.rows, TouchedDir(w, e).value.action, TouchedDir(w, e).value.name)
  {
    if e.Clear? || e.Rename? || e.RollBack? { assert JobOk(w, e.a); }
  }

  /** No step touches the directory of a stored version. */
  lemma StoredDirStays(w: World, e: Event, v: string)
    requires Enabled(w, e) && v in w.rows && RowOk(w, v) && forall a | a in w.jobs :: JobOk(w, a)
    ensures var d := Dir(w.rows[v].action, v); d in Apply(w, e).dirs && Apply(w, e).dirs[d] == w.dirs[d]
  {
    TouchedIsOrphan(w, e);
    OtherDirsStay(w, e, Dir(w.rows[v].action, v));
  }

  lemma KeepsRow(w: World, e: Event, v: string)
    requires Enabled(w, e) && v in Apply(w, e).rows
    requires RowOk(w, v) && forall a | a in w.jobs :: JobOk(w, a)
    ensures RowOk(Apply(w, e), v)
  {
    var w' := Apply(w, e);
    if v in w.rows {
      StoredDirStays(w, e, v);
      assert w'.rows[v] == w.rows[v] by { if e.Insert? { assert JobOk(w, e.a); } }
      assert w'.request[v] == w.request[v] by { if e.Insert? { assert JobOk(w, e.a); } }
    } else {
      assert e.Insert? && JobOk(w, e.a);
    }
  }

  /** A stored version is never changed while it exists. */
  lemma RowsStay(w: World, e: Event, v: string)
    requires Inv(w) && Enabled(w, e) && v in w.rows
    ensures v in Apply(w, e).rows ==> Apply(w, e).rows[v] == w.rows[v]
    ensures v !in Apply(w, e).rows ==> e == DropAction(w.rows[v].action)
  {
    if e.Insert? { assert JobOk(w, e.a); }
  }

  lemma OldRowHasNoGap(w: World, e: Event, v: string)
    requires Inv(w) && Enabled(w, e) && v in w.rows && v in Apply(w, e).rows
    ensures NoGap(Apply(w, e), v)
  {
    assert NoGap(w, v);
    RowsStay(w, e, v);
    if w.rows[v].number > 1 {
      var u := VersionId(w.rows[v].action, w.rows[v].number - 1);
      assert RowOk(w, u);
      VersionIdInjective(w.rows[v].action, w.rows[v].number - 1, w.rows[u].action, w.rows[u].number);
      RowsStay(w, e, u);
    }
  }

  lemma NewRowHasNoGap(w: World, e: Event, v: string)
    requires Enabled(w, e) && e.Insert? && JobOk(w, e.a) && (forall u | u in w.rows :: RowOk(w, u))
    requires v !in w.rows && v in Apply(w, e).rows
    ensures NoGap(Apply(w, e), v)
  {
    var n := w.jobs[e.a].n;
    if n > 1 {
      var u :| u in w.rows && w.rows[u] == Row(e.a, n - 1);
      assert RowOk(w, u);
    }
  }

  lemma KeepsNoGap(w: World, e: Event, v: string)
    requires Inv(w) && Enabled(w, e) && v in Apply(w, e).rows
    ensures NoGap(Apply(w, e), v)
  {
    if v in w.rows {
      OldRowHasNoGap(w, e, v);
    } else {
      assert JobOk(w, e.a);
      NewRowHasNoGap(w, e, v);
    }
  }

  lemma NextNumberStays(w: World, e: Event, a: string, n: nat)
    requires Enabled(w, e) && IsNextNumber(w.rows, a, n) && a in Apply(w, e).actions && a in w.actions
    requires e.Insert? && e.ok ==> e.a != a
    ensures IsNextNumber(Apply(w, e).rows, a, n)
  {
    var w' := Apply(w, e);
    if n > 1 {
      var v :| v in w.rows && w.rows[v] == Row(a, n - 1);
      assert v in w'.rows && w'.rows[v] == Row(a, n - 1);
    }
  }

  lemma KeepsNumber(w: World, e: Event, a: string)
    requires JobOk(w, a) && w.actions <= w.used && Enabled(w, e) && a in Apply(w, e).jobs && a in w.jobs
    ensures NumberOk(Apply(w, e), a)
  {
    var w' := Apply(w, e);
    if !w'.jobs[a].Discarding? {
      var n := w'.jobs[a].n;
      assert w.jobs[a].n == n;
      if a in w'.actions { NextNumberStays(w, e, a, n); }
      if e.Insert? && e.ok { OtherIdInserted(w, e, a, n); }
    }
  }

  /** Another action's new row does not take this id. */
  lemma OtherIdInserted(w: World, e: Event, a: string, n: nat)
    requires Enabled(w, e) && e.Insert? && e.ok && e.a != a && VersionId(a, n) !in w.rows
    ensures VersionId(a, n) !in Apply(w, e).rows
  {
    if VersionId(a, n) == VersionId(e.a, w.jobs[e.a].n) { VersionIdInjective(a, n, e.a, w.jobs[e.a].n); }
  }

  /** The files of a creation that takes no part in the step. */
  lemma KeepsOtherFiles(w: World, e: Event, a: string)
    requires FilesOk(w, a) && Enabled(w, e) && a in w.jobs && a in Apply(w, e).jobs && Apply(w, e).jobs[a] == w.jobs[a]
    requires TouchedDir(w, e).Some? ==> TouchedDir(w, e).value.action != a
    ensures FilesOk(Apply(w, e), a)
  {
    var j := w.jobs[a];
    if j.Committed? {
      OtherDirsStay(w, e, Dir(a, VersionId(a, j.n)));
    } else if j.Staged? || j.Cleared? {
      OtherStagingStays(w, e, Dir(a, j.token));
    }
  }

  lemma OtherStagingStays(w: World, e: Event, d: Dir)
    requires Enabled(w, e) && d in w.staging
    requires d.action in w.jobs && d.action in Apply(w, e).jobs && Apply(w, e).jobs[d.action] == w.jobs[d.action]
    ensures d in Apply(w, e).staging && Apply(w, e).staging[d] == w.staging[d]
  {
    match e {
      case Stage(_, _, _) =>
      case StageFails(_, _, _) =>
      case Rename(_, _) =>
      case Discard(_, _) =>
      case _ => assert Apply(w, e).staging == w.staging;
    }
  }

  /** The files of the creation that takes the step. */
  lemma KeepsOwnFiles(w: World, e: Event, a: string)
    requires FilesOk(w, a) && Enabled(w, e) && a in w.jobs && a in Apply(w, e).jobs && Apply(w, e).jobs[a] != w.jobs[a]
    ensures FilesOk(Apply(w, e), a)
  {
    match e {
      case Stage(_, _, _) =>
      case Clear(_, _) =>
      case Rename(_, _) =>
      case Insert(_, _) =>
      case _ =>
    }
  }

  lemma KeepsFiles(w: World, e: Event, a: string)
    requires FilesOk(w, a) && Enabled(w, e) && a in Apply(w, e).jobs && a in w.jobs
    ensures FilesOk(Apply(w, e), a)
  {
    if Apply(w, e).jobs[a] == w.jobs[a] {
      KeepsOtherFiles(w, e, a);
    } else {
      KeepsOwnFiles(w, e, a);
    }
  }

  lemma KeepsJob(w: World, e: Event, a: string)
    requires Inv(w) && Enabled(w, e) && a in Apply(w, e).jobs
    ensures JobOk(Apply(w, e), a)
  {
    if e.Lock? && e.a == a {
      NextIdIsFree(w, a, e.n);
    } else {
      assert JobOk(w, a);
      KeepsNumber(w, e, a);
      KeepsFiles(w, e, a);
    }
  }

  /** Every step, a crash included, keeps the invariant. */
  lemma StepKeepsInv(w: World, e: Event)
    requires Inv(w) && Enabled(w, e)
    ensures Inv(Apply(w, e))
  {
    var w' := Apply(w, e);
    forall v | v in w'.rows ensures RowOk(w', v) && NoGap(w', v) {
      assert RowOk(w, v);
      KeepsRow(w, e, v);
      KeepsNoGap(w, e, v);
    }
    forall a | a in w'.jobs ensures JobOk(w', a) { KeepsJob(w, e, a); }
  }

  predicate StepAt(ws: seq<World>, es: seq<Event>, k: int) {
    0 <= k < |es| && k + 1 < |ws| && Enabled(ws[k], es[k]) && ws[k + 1] == Apply(ws[k], es[k])
  }

  predicate Behaviour(ws: seq<World>, es: seq<Event>) {
    |ws| == |es| + 1 && ws[0] == Fresh && forall k | 0 <= k < |es| :: StepAt(ws, es, k)
  }

  lemma {:induction false} InvAlways(ws: seq<World>, es: seq<Event>, j: nat)
    requires Behaviour(ws, es) && j <= |es|
    ensures Inv(ws[j])
  {
    if j > 0 {
      InvAlways(ws, es, j - 1);
      assert StepAt(ws, es, j - 1);
      StepKeepsInv(ws[j - 1], es[j - 1]);
    }
  }

  ghost predicate Reachable(w: World) {
    exists ws: seq<World>, es: seq<Event> :: Behaviour(ws, es) && ws[|es|] == w
  }

  lemma FreshIsReachable()
    ensures Reachable(Fresh)
  {
    assert Behaviour([Fresh], []);
  }

  lemma StaysReachable(w: World, e: Event)
    requires Reachable(w) && Enabled(w, e)
    ensures Reachable(Apply(w, e))
  {
    var ws: seq<World>, es: seq<Event> :| Behaviour(ws, es) && ws[|es|] == w;
    var ws', es' := ws + [Apply(w, e)], es + [e];
    forall k | 0 <= k < |es'| ensures StepAt(ws', es', k) {
      if k < |es| { assert StepAt(ws, es, k); }
    }
    assert Behaviour(ws', es') && ws'[|es'|] == Apply(w, e);
  }

  lemma ReachableInv(w: World)
    requires Reachable(w)
    ensures Inv(w)
  {
    var ws: seq<World>, es: seq<Event> :| Behaviour(ws, es) && ws[|es|] == w;
    InvAlways(ws, es, |es|);
  }

  lemma ReachableJob(w: World, a: string)
    requires Reachable(w) && a in w.jobs
    ensures JobOk(w, a)
  {
    ReachableInv(w);
  }

  /** In every reachable state each version row's directory exists and holds the cleaned request. */
  lemma StoredVersionsHaveTheirFiles(ws: seq<World>, es: seq<Event>, j: nat, v: string)
    requires Behaviour(ws, es) && j <= |es| && v in ws[j].rows
    ensures var d := Dir(ws[j].rows[v].action, v);
            d in ws[j].dirs && v in ws[j].request && HoldsCleaned(ws[j].request[v], ws[j].dirs[d])
  {
    InvAlways(ws, es, j);
    assert RowOk(ws[j], v);
  }

  /** A stored version reads back every file it was created from, when the names stay distinct after cleaning. */
  lemma StoredFilesReadBack(ws: seq<World>, es: seq<Event>, j: nat, v: string, name: string)
    requires Behaviour(ws, es) && j <= |es| && v in ws[j].rows && v in ws[j].request && name in ws[j].request[v]
    requires forall k, l | k in ws[j].request[v] && l in ws[j].request[v] ::
               StatePath.Sanitize(k) == StatePath.Sanitize(l) ==> k == l
    ensures var d, clean := Dir(ws[j].rows[v].action, v), StatePath.Sanitize(name);
            && d in ws[j].dirs && clean.Ok? && clean.value in ws[j].dirs[d]
            && ws[j].dirs[d][clean.value] == ws[j].request[v][name]
  {
    StoredVersionsHaveTheirFiles(ws, es, j, v);
    var bundle := ws[j].dirs[Dir(ws[j].rows[v].action, v)];
    DistinctNamesDetermineBundle(ws[j].request[v], bundle, bundle);
  }

  lemma {:induction false} LowerNumbersStored(w: World, a: string, n: nat, k: nat)
    requires Inv(w) && VersionId(a, n) in w.rows && w.rows[VersionId(a, n)] == Row(a, n) && 1 <= k <= n
    ensures VersionId(a, k) in w.rows && w.rows[VersionId(a, k)] == Row(a, k)
    decreases n - k
  {
    if k < n {
      LowerNumbersStored(w, a, n, k + 1);
      assert NoGap(w, VersionId(a, k + 1));
      var v := VersionId(a, k);
      assert RowOk(w, v);
      VersionIdInjective(a, k, w.rows[v].action, w.rows[v].number);
    }
  }

  /** In every reachable state an action's version numbers are exactly 1..n, where n + 1 is the number
      the next creation will read. */
  lemma VersionNumbersHaveNoGaps(ws: seq<World>, es: seq<Event>, j: nat, a: string, n: nat, k: nat)
    requires Behaviour(ws, es) && j <= |es| && IsNextNumber(ws[j].rows, a, n + 1)
    ensures VersionId(a, k) in ws[j].rows && ws[j].rows[VersionId(a, k)] == Row(a, k) <==> 1 <= k <= n
  {
    InvAlways(ws, es, j);
    var w := ws[j];
    if n >= 1 && 1 <= k <= n {
      var v :| v in w.rows && w.rows[v] == Row(a, n);
      assert RowOk(w, v);
      LowerNumbersStored(w, a, n, k);
    }
    if VersionId(a, k) in w.rows { assert RowOk(w, VersionId(a, k)); }
  }
}

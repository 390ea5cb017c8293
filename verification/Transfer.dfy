/** UploadFiles and ExportFiles of internal/sandbox/client.go over an abstract sandbox disk. */
module Transfer {
  import opened Base64
  import opened Domain
  import opened ExportRun
  import opened Sums
  import opened Text

  const UPLOAD_CHUNK := 30000

  type Disk = map<string, Bytes>

  /** Where every symbolic link leads in the end. */
  type Links = map<string, string>

  // ---- Paths -------------------------------------------------------------------------------------

  ghost predicate Resolved(links: Links) {
    forall l | l in links :: links[l] !in links && HasPrefix(links[l], "/")
  }

  function Resolve(links: Links, path: string): string { if path in links then links[path] else path }

  function Rel(path: string): string { TrimPrefix(TrimPrefix(path, "/"), "sandbox/") }

  /** The file an upload of this path writes. */
  function Dest(links: Links, path: string): string { Resolve(links, "/sandbox/" + Rel(path)) }

  /** The canonical name printed for this path: under /sandbox first, then under the root. */
  function Locate(links: Links, disk: Disk, path: string): Option<string> {
    if Dest(links, path) in disk then Some(Dest(links, path))
    else
      var atRoot := Resolve(links, "/" + Rel(path));
      if atRoot in disk then Some(atRoot) else None
  }

  /** The name the export reads: the printed line without white space at its ends. */
  function Target(links: Links, disk: Disk, path: string): Option<string> {
    match Locate(links, disk, path)
    case Some(name) => Some(TrimSpace(name + "\n"))
    case None => None
  }

  /** What reading this name yields; a missing file reads as empty. */
  function Content(links: Links, disk: Disk, name: string): Bytes {
    if Resolve(links, name) in disk then disk[Resolve(links, name)] else []
  }

  lemma PrintedLine(name: string)
    requires HasPrefix(name, "/")
    ensures TrimSpace(name + "\n") == TrimRight(name) && TrimRight(name) != ""
  {
    TrimLeftFixed(name + "\n");
    assert TrailingSpace(name + "\n") == 1 && (name + "\n")[..|name|] == name;
    TrimRightStopsAt("", '/', name[1..]);
    assert name == "" + ['/'] + name[1..];
  }

  function ViewOf(links: Links, disk: Disk): View {
    View(p => Target(links, disk, p), n => Content(links, disk, n))
  }

  lemma LocateIsAbsolute(links: Links, disk: Disk, path: string)
    requires Resolved(links)
    ensures Locate(links, disk, path).Some? ==> HasPrefix(Locate(links, disk, path).value, "/")
  {
  }

  // ---- Where that is -------------------------------------------------------------------------------

  /** The spellings of the file q below /sandbox. */
  predicate Spells(path: string, q: string) {
    || path == "/sandbox/" + q || path == "sandbox/" + q
    || (!("sandbox/" <= q) && path == "/" + q)
    || (!("sandbox/" <= q) && !("/" <= q) && path == q)
  }

  /** The file a name stands for: its link's target, if it is a link. */
  function FileOf(links: Links, name: string): string { if name in links then links[name] else name }

  /** Every path is a spelling of exactly one file. */
  lemma EveryPathSpellsOne(path: string) returns (q: string)
    ensures Spells(path, q) && forall r | Spells(path, r) :: r == q
  {
    q := Rel(path);
    forall r | Spells(path, r) ensures r == q { RelOf(path, r); }
  }

  lemma RelOf(path: string, q: string)
    requires Spells(path, q)
    ensures Rel(path) == q
  {
    if path == "/sandbox/" + q { assert path == "/" + ("sandbox/" + q); }
    if path == "sandbox/" + q { assert path[0] == 's'; }
    StripIs("/", q);
    StripIs("/", "sandbox/" + q);
    StripIs("sandbox/", q);
  }

  lemma StripIs(prefix: string, rest: string)
    ensures TrimPrefix(prefix + rest, prefix) == rest
  {
    assert (prefix + rest)[|prefix|..] == rest;
  }

  /** A stored file is there under each of its spellings. */
  predicate StoredAs(links: Links, disk: Disk, path: string, q: string, data: Bytes) {
    FileOf(links, "/sandbox/" + q) in disk && disk[FileOf(links, "/sandbox/" + q)] == data
  }

  lemma UploadedAs(links: Links, disk: Disk, files: map<string, Bytes>)
    ensures (exists p :: files.Keys == {p}) ==> OneToOne(links, files.Keys)
    ensures Uploaded(links, disk, files, files.Keys) ==>
              forall p, q | p in files && Spells(p, q) :: StoredAs(links, disk, p, q, files[p])
  {
    if Uploaded(links, disk, files, files.Keys) {
      forall p, q | p in files && Spells(p, q) ensures StoredAs(links, disk, p, q, files[p]) { DestOf(links, p, q); }
    }
  }

  /** An upload of any spelling writes that file. */
  lemma DestOf(links: Links, path: string, q: string)
    requires Spells(path, q)
    ensures Dest(links, path) == FileOf(links, "/sandbox/" + q)
  {
    RelOf(path, q);
  }

  /** An export of any spelling finds it under /sandbox when it is there, and only otherwise under the root. */
  lemma LocateOf(links: Links, disk: Disk, path: string, q: string)
    requires Spells(path, q)
    ensures Locate(links, disk, path)
            == if FileOf(links, "/sandbox/" + q) in disk then Some(FileOf(links, "/sandbox/" + q))
               else if FileOf(links, "/" + q) in disk then Some(FileOf(links, "/" + q)) else None
  {
    RelOf(path, q);
  }

  /** What comes back for a spelling of q whose file's name does not end in white space. */
  predicate ComesBack(links: Links, disk: Disk, out: map<string, Bytes>, path: string, q: string) {
    var inside, atRoot := FileOf(links, "/sandbox/" + q), FileOf(links, "/" + q);
    if inside in disk then TrimRight(inside) == inside ==> path in out && out[path] == disk[inside]
    else if atRoot in disk then TrimRight(atRoot) == atRoot ==> path in out && out[path] == disk[atRoot]
    else path !in out
  }

  lemma ExportComesBack(links: Links, disk: Disk, paths: seq<string>, path: string, q: string)
    requires Resolved(links) && path in paths && Spells(path, q)
    ensures ComesBack(links, disk, Exports(ViewOf(links, disk), paths), path, q)
  {
    LocateOf(links, disk, path, q);
    LocateIsAbsolute(links, disk, path);
    if Locate(links, disk, path).Some? { PrintedLine(Locate(links, disk, path).value); }
  }

  // ---- What an upload stores ------------------------------------------------------------------------

  function Lookup(disk: Disk, name: string): Option<Bytes> { if name in disk then Some(disk[name]) else None }

  /** The disk after a command that should have stored `data`. */
  function Stored(disk: Disk, dest: string, data: Bytes, o: Outcome): Disk {
    if o.Done? then disk[dest := data] else if o.left.Some? then disk[dest := o.left.value] else disk
  }

  /** The upload of an empty file, its first command having number `at`: mkdir, then the creation, whose
      exit status is not looked at. */
  function EmptyUpload(links: Links, disk: Disk, plan: nat -> Outcome, at: nat, path: string): (bool, Disk) {
    if !plan(at).Done? then (false, disk)
    else (!plan(at + 1).Unreachable?, Stored(disk, Dest(links, path), [], plan(at + 1)))
  }

  /** The creation left an empty file. */
  predicate CreatedEmpty(before: Option<Bytes>, o: Outcome) {
    o.Done? || o.left == Some([]) || (o.left.None? && before == Some([]))
  }

  /** A reported success means an empty file exactly when the creation was not refused, or the refused
      command happened to leave an empty file there. */
  lemma EmptyUploadStoresIff(links: Links, disk: Disk, plan: nat -> Outcome, at: nat, path: string)
    requires EmptyUpload(links, disk, plan, at, path).0
    ensures Lookup(EmptyUpload(links, disk, plan, at, path).1, Dest(links, path)) == Some([])
            <==> CreatedEmpty(Lookup(disk, Dest(links, path)), plan(at + 1))
    ensures plan(at + 1).Done? || plan(at + 1).Refused?
  {
  }

  /** The failing case: mkdir works, the creation is refused without touching the file, and the upload
      reports success although every byte of the old file is still there. */
  lemma RefusedCreationKeepsOldFile(links: Links, plan: nat -> Outcome, at: nat, path: string, kept: Bytes)
    requires plan(at).Done? && plan(at + 1).Refused? && plan(at + 1).left.None? && kept != []
    ensures var disk: Disk := map[Dest(links, path) := kept];
            && EmptyUpload(links, disk, plan, at, path) == (true, disk)
            && !Uploaded(links, disk, map[path := []], {path})
  {
    var disk: Disk := map[Dest(links, path) := kept];
    assert Stored(disk, Dest(links, path), [], plan(at + 1)) == disk;
    assert disk[Dest(links, path)] == kept;
    assert path in {path};
  }

  /** No two of these paths share a destination. */
  predicate OneToOne(links: Links, paths: set<string>) {
    forall p, q | p in paths && q in paths :: Dest(links, p) == Dest(links, q) ==> p == q
  }

  predicate Uploaded(links: Links, disk: Disk, files: map<string, Bytes>, paths: set<string>)
    requires paths <= files.Keys
  {
    forall p | p in paths :: Dest(links, p) in disk && disk[Dest(links, p)] == files[p]
  }

  /** Nothing but the destinations of these paths has changed. */
  predicate Elsewhere(links: Links, paths: set<string>, before: Disk, after: Disk) {
    var dests := set p | p in paths :: Dest(links, p);
    after - dests == before - dests
  }

  lemma ElsewhereStep(links: Links, paths: set<string>, path: string, first: Disk, before: Disk, after: Disk)
    requires path in paths && Elsewhere(links, paths, first, before)
    requires after - {Dest(links, path)} == before - {Dest(links, path)}
    ensures Elsewhere(links, paths, first, after)
  {
    var dests := set p | p in paths :: Dest(links, p);
    assert Dest(links, path) in dests;
    forall f | f !in dests ensures f in after <==> f in first ensures f in after ==> after[f] == first[f] {
      assert f in after - {Dest(links, path)} <==> f in before - {Dest(links, path)};
      assert f in before - dests <==> f in first - dests;
      if f in after {
        assert (after - {Dest(links, path)})[f] == (before - {Dest(links, path)})[f];
        assert (before - dests)[f] == (first - dests)[f];
      }
    }
  }

  /** What a reported success says about one file: its bytes are there, or it is empty and its creation,
      one of the commands issued, had this effect on what was there. */
  predicate Settled(links: Links, plan: nat -> Outcome, from: nat, to: nat, before: Disk, after: Disk,
                    path: string, data: Bytes)
  {
    var dest := Dest(links, path);
    if data != [] then Lookup(after, dest) == Some(data)
    else
      exists k: nat | from <= k < to ::
        !plan(k).Unreachable? && Lookup(after, dest) == Lookup(Stored(before, dest, [], plan(k)), dest)
  }

  predicate AllSettled(links: Links, plan: nat -> Outcome, from: nat, to: nat, before: Disk, after: Disk,
                       files: map<string, Bytes>, paths: set<string>)
    requires paths <= files.Keys
  {
    forall p | p in paths :: Settled(links, plan, from, to, before, after, p, files[p])
  }

  /** A file settled by a range of commands stays so over a longer range and changes elsewhere. */
  lemma StaysSettled(links: Links, plan: nat -> Outcome, from: nat, mid: nat, to: nat,
                     before: Disk, next: Disk, after: Disk, path: string, data: Bytes)
    requires Settled(links, plan, from, mid, before, next, path, data) && mid <= to
    requires Lookup(after, Dest(links, path)) == Lookup(next, Dest(links, path))
    ensures Settled(links, plan, from, to, before, after, path, data)
  {
    if data == [] {
      var dest := Dest(links, path);
      var k: nat :| from <= k < mid && !plan(k).Unreachable?
                    && Lookup(next, dest) == Lookup(Stored(before, dest, [], plan(k)), dest);
      assert from <= k < to;
    }
  }

  lemma OtherDestStays(links: Links, before: Disk, after: Disk, path: string, other: string)
    requires after - {Dest(links, path)} == before - {Dest(links, path)} && Dest(links, other) != Dest(links, path)
    ensures Lookup(after, Dest(links, other)) == Lookup(before, Dest(links, other))
  {
    var f := Dest(links, other);
    assert f in before - {Dest(links, path)} <==> f in before;
    assert f in after - {Dest(links, path)} <==> f in after;
    if f in before { assert (after - {Dest(links, path)})[f] == (before - {Dest(links, path)})[f]; }
  }

  lemma SettledStep(links: Links, plan: nat -> Outcome, from: nat, mid: nat, to: nat,
                    first: Disk, before: Disk, after: Disk, files: map<string, Bytes>, done: set<string>, path: string)
    requires done <= files.Keys && path in files && path !in done && OneToOne(links, files.Keys) && mid <= to
    requires AllSettled(links, plan, from, mid, first, before, files, done)
    requires after - {Dest(links, path)} == before - {Dest(links, path)}
    requires Settled(links, plan, from, to, first, after, path, files[path])
    ensures AllSettled(links, plan, from, to, first, after, files, done + {path})
  {
    forall p | p in done ensures Settled(links, plan, from, to, first, after, p, files[p]) {
      OtherDestStays(links, before, after, path, p);
      StaysSettled(links, plan, from, mid, to, first, before, after, p, files[p]);
    }
  }

  /** The last upload settles its own file; what was there before is what was there at first. */
  lemma SettledSince(links: Links, plan: nat -> Outcome, from: nat, mid: nat, to: nat,
                     first: Disk, before: Disk, after: Disk, path: string, data: Bytes)
    requires Settled(links, plan, mid, to, before, after, path, data) && from <= mid
    requires Lookup(before, Dest(links, path)) == Lookup(first, Dest(links, path))
    ensures Settled(links, plan, from, to, first, after, path, data)
  {
    if data == [] {
      var dest := Dest(links, path);
      var k: nat :| mid <= k < to && !plan(k).Unreachable?
                    && Lookup(after, dest) == Lookup(Stored(before, dest, [], plan(k)), dest);
      assert Lookup(Stored(before, dest, [], plan(k)), dest) == Lookup(Stored(first, dest, [], plan(k)), dest);
      assert from <= k < to;
    }
  }

  /** Settled files are stored, except an empty one whose creation was refused and left something else. */
  lemma SettledIsUploaded(links: Links, plan: nat -> Outcome, from: nat, to: nat, before: Disk, after: Disk,
                          files: map<string, Bytes>)
    requires AllSettled(links, plan, from, to, before, after, files, files.Keys)
    requires AllDone(plan, from, to) || forall p | p in files :: files[p] != []
    ensures Uploaded(links, after, files, files.Keys)
  {
    forall p | p in files ensures Dest(links, p) in after && after[Dest(links, p)] == files[p] {
      assert Settled(links, plan, from, to, before, after, p, files[p]);
      assert Lookup(after, Dest(links, p)) == Some(files[p]);
    }
  }

  // ---- Upload followed by export ------------------------------------------------------------------------

  /** An uploaded path is found again, and read under its name without trailing white space. */
  lemma UploadedTarget(links: Links, disk: Disk, files: map<string, Bytes>, p: string)
    requires Resolved(links) && Uploaded(links, disk, files, files.Keys) && p in files
    ensures Target(links, disk, p) == Some(TrimRight(Dest(links, p)))
    ensures Resolve(links, Dest(links, p)) == Dest(links, p)
    ensures Content(links, disk, Dest(links, p)) == files[p]
  {
    LocateIsAbsolute(links, disk, p);
    PrintedLine(Dest(links, p));
  }

  /** Every destination is still reached when white space at the end of its name is dropped. */
  predicate NamesSurvive(links: Links, paths: set<string>) {
    forall p | p in paths :: Resolve(links, TrimRight(Dest(links, p))) == Dest(links, p)
  }

  /** The name read for an uploaded path. */
  function ReadName(links: Links, path: string): string { TrimRight(Dest(links, path)) }

  /** Every path is located, and the name read for it yields its bytes. */
  predicate Found(links: Links, disk: Disk, files: map<string, Bytes>) {
    forall p | p in files ::
      Target(links, disk, p) == Some(ReadName(links, p)) && Content(links, disk, ReadName(links, p)) == files[p]
  }

  lemma UploadedIsFound(links: Links, disk: Disk, files: map<string, Bytes>)
    requires Resolved(links) && Uploaded(links, disk, files, files.Keys) && NamesSurvive(links, files.Keys)
    ensures Found(links, disk, files)
  {
    forall p | p in files
      ensures Target(links, disk, p) == Some(ReadName(links, p)) && Content(links, disk, ReadName(links, p)) == files[p]
    {
      UploadedTarget(links, disk, files, p);
    }
  }

  lemma TargetsAreNames(v: View, names: map<string, string>, paths: seq<string>)
    requires forall p | p in names :: v.target(p) == Some(names[p])
    requires forall p :: p in paths <==> p in names
    ensures names.Values == Targets(v, paths)
  {
    forall t | t in Targets(v, paths) ensures t in names.Values {
      var p :| p in paths && v.target(p) == Some(t);
      assert p in names && names[p] == t;
    }
    forall t | t in names.Values ensures t in Targets(v, paths) {
      var p :| p in names && names[p] == t;
      assert p in paths;
    }
  }

  lemma RenamedTotals(links: Links, disk: Disk, files: map<string, Bytes>, names: map<string, string>)
    requires names.Keys == files.Keys
    requires forall p, q | p in files && q in files :: names[p] == names[q] ==> p == q
    requires forall p | p in files :: Content(links, disk, names[p]) == files[p]
    ensures Sum(Volumes(ViewOf(links, disk), names.Values)) == Sum(Sizes(files))
  {
    SumRenamed(Sizes(files), Volumes(ViewOf(links, disk), names.Values), names);
  }

  lemma FoundTotals(links: Links, disk: Disk, files: map<string, Bytes>, paths: seq<string>)
    requires Found(links, disk, files) && forall p :: p in paths <==> p in files
    requires OneToOne(links, files.Keys) && NamesSurvive(links, files.Keys)
    ensures Sum(Volumes(ViewOf(links, disk), Targets(ViewOf(links, disk), paths))) == Sum(Sizes(files))
  {
    var names := map p | p in files :: ReadName(links, p);
    TargetsAreNames(ViewOf(links, disk), names, paths);
    RenamedTotals(links, disk, files, names);
  }

  /** Upload, then export: every file comes back byte for byte, whatever its contents and length, and
      the export's budget is charged exactly the bytes uploaded. */
  lemma UploadThenExport(links: Links, disk: Disk, files: map<string, Bytes>, paths: seq<string>)
    requires Resolved(links) && Uploaded(links, disk, files, files.Keys)
    requires OneToOne(links, files.Keys) && NamesSurvive(links, files.Keys)
    requires forall p :: p in paths <==> p in files
    ensures Exports(ViewOf(links, disk), paths) == files
    ensures Sum(Volumes(ViewOf(links, disk), Targets(ViewOf(links, disk), paths))) == Sum(Sizes(files))
  {
    UploadedIsFound(links, disk, files);
    FoundTotals(links, disk, files, paths);
  }

  /** These paths come back from every disk they have been uploaded to, whatever their contents. */
  ghost predicate AlwaysComeBack(links: Links, paths: seq<string>) {
    forall files: map<string, Bytes>, disk: Disk |
        (forall p :: p in files <==> p in paths) && Uploaded(links, disk, files, files.Keys) ::
      Exports(ViewOf(links, disk), paths) == files
  }

  /** The contents that give a misread name away: one byte in that file, none in the others. */
  lemma MisreadFile(links: Links, paths: seq<string>, p: string) returns (files: map<string, Bytes>, disk: Disk)
    requires Resolved(links) && p in paths && Resolve(links, ReadName(links, p)) != Dest(links, p)
    requires OneToOne(links, set q | q in paths)
    ensures (forall q :: q in files <==> q in paths) && Uploaded(links, disk, files, files.Keys)
    ensures Exports(ViewOf(links, disk), paths) != files
  {
    files := map q | q in paths :: if q == p then [0] else [];
    var dests := set q | q in paths :: Dest(links, q);
    disk := map d | d in dests :: if d == Dest(links, p) then [0] else [];
    UploadedTarget(links, disk, files, p);
    assert Content(links, disk, ReadName(links, p)) == [];
    assert p in Exports(ViewOf(links, disk), paths) && Exports(ViewOf(links, disk), paths)[p] == [];
    assert files[p] == [0];
  }

  /** Exactly when: paths without shared destinations always come back if and only if no destination
      loses its name by having white space dropped from its end. */
  lemma RoundTripIffNamesSurvive(links: Links, paths: seq<string>)
    requires Resolved(links) && OneToOne(links, set p | p in paths)
    ensures AlwaysComeBack(links, paths) <==> NamesSurvive(links, set p | p in paths)
  {
    var all := set p | p in paths;
    if NamesSurvive(links, all) {
      forall files: map<string, Bytes>, disk: Disk |
          (forall p :: p in files <==> p in paths) && Uploaded(links, disk, files, files.Keys)
        ensures Exports(ViewOf(links, disk), paths) == files
      {
        assert files.Keys == all;
        UploadThenExport(links, disk, files, paths);
      }
    } else {
      var p :| p in all && Resolve(links, TrimRight(Dest(links, p))) != Dest(links, p);
      var files, disk := MisreadFile(links, paths, p);
    }
  }
}

/** UploadFiles and ExportFiles of internal/sandbox/client.go as they run. */
module SandboxClient {
  import opened Base64
  import opened Domain
  import opened ExportRun
  import opened Sums
  import opened Text
  import opened Transfer

  class Client {
    const links: Links
    const plan: nat -> Outcome
    var disk: Disk
    var issued: nat

    ghost predicate Valid() { Resolved(links) }

    /** Every command issued since number `from` did its work. */
    ghost predicate Smooth(from: nat)
      reads this`issued
    {
      forall k | from <= k < issued :: plan(k).Done?
    }

    constructor (links: Links, disk: Disk, plan: nat -> Outcome)
      requires Resolved(links)
      ensures Valid() && this.links == links && this.disk == disk && this.plan == plan && issued == 0
    {
      this.links, this.disk, this.plan, issued := links, disk, plan, 0;
    }

    method Issue() returns (o: Outcome)
      modifies this`issued
      ensures issued == old(issued) + 1 && o == plan(old(issued))
    {
      o := plan(issued);
      issued := issued + 1;
    }

    /** A command that should store `data` in the target. */
    method Store(dest: string, data: Bytes) returns (o: Outcome)
      modifies this
      ensures issued == old(issued) + 1 && o == plan(old(issued))
      ensures disk == Stored(old(disk), dest, data, o) && disk - {dest} == old(disk) - {dest}
    {
      o := Issue();
      if o.Done? {
        disk := disk[dest := data];
      } else if o.left.Some? {
        disk := disk[dest := o.left.value];
      }
    }

    /** base64 -d into the target, replacing or appending. */
    method StoreDecoded(dest: string, append: bool, encoded: string) returns (o: Outcome)
      modifies this
      ensures issued == old(issued) + 1
      ensures var d := Decode(DropNewlines(encoded + "\n"));
              && (o.Done? <==> plan(old(issued)).Done? && d.Some?)
              && (o.Done? ==>
                    disk == old(disk)[dest := (if append && dest in old(disk) then old(disk)[dest] else []) + d.value])
      ensures disk - {dest} == old(disk) - {dest}
    {
      var d := Decode(DropNewlines(encoded + "\n"));
      if d.None? {
        o := Issue();
        return Refused(None, 0, 0);
      }
      o := Store(dest, (if append && dest in disk then disk[dest] else []) + d.value);
    }

    /** One chunk: the first replaces the file, the others append to it. */
    method UploadChunk(dest: string, data: Bytes, offset: nat) returns (ok: bool)
      requires offset < |data| && (offset > 0 ==> dest in disk && disk[dest] == data[..offset])
      modifies this
      ensures issued == old(issued) + 1 && disk - {dest} == old(disk) - {dest}
      ensures ok <==> plan(old(issued)).Done?
      ensures ok ==> dest in disk && disk[dest] == data[..Least(offset + UPLOAD_CHUNK, |data|)]
    {
      var end := Least(offset + UPLOAD_CHUNK, |data|);
      var chunk := data[offset..end];
      Transported(chunk);
      TakeFurther(data, offset, end);
      var o := StoreDecoded(dest, offset > 0, Encode(chunk));
      return o.Done?;
    }

    method UploadContents(dest: string, data: Bytes) returns (ok: bool)
      requires data != []
      modifies this
      ensures issued > old(issued) && disk - {dest} == old(disk) - {dest}
      ensures ok <==> Smooth(old(issued))
      ensures ok ==> dest in disk && disk[dest] == data
    {
      var offset := 0;
      ok := true;
      while offset < |data|
        invariant disk - {dest} == old(disk) - {dest} && issued >= old(issued) && (offset > 0 ==> issued > old(issued))
        invariant offset > 0 ==> dest in disk && disk[dest] == data[..Least(offset, |data|)]
        invariant Smooth(old(issued))
        decreases |data| - offset
      {
        ok := UploadChunk(dest, data, offset);
        if !ok { return; }
        offset := offset + UPLOAD_CHUNK;
      }
      assert data[..Least(offset, |data|)] == data;
    }

    /** One file. It fails exactly when a command fails, except that the exit status of the command that
        creates an empty file is not looked at: a success there means stored only if that command left an
        empty file. */
    method UploadFile(path: string, data: Bytes) returns (ok: bool)
      modifies this
      ensures issued > old(issued) && disk - {Dest(links, path)} == old(disk) - {Dest(links, path)}
      ensures ok <==> Smooth(old(issued)) || (data == [] && issued == old(issued) + 2
                                              && plan(old(issued)).Done? && plan(old(issued) + 1).Refused?)
      ensures data == [] ==> (ok, disk) == EmptyUpload(links, old(disk), plan, old(issued), path)
      ensures ok ==> (Lookup(disk, Dest(links, path)) == Some(data)
                      <==> data != [] || CreatedEmpty(Lookup(old(disk), Dest(links, path)), plan(old(issued) + 1)))
      ensures ok ==> Settled(links, plan, old(issued), issued, old(disk), disk, path, data)
      ensures ok && (data != [] || Smooth(old(issued))) ==>
                forall q | Spells(path, q) :: StoredAs(links, disk, path, q, data)
    {
      forall q | Spells(path, q) ensures Dest(links, path) == FileOf(links, "/sandbox/" + q) { DestOf(links, path, q); }
      var dest := Dest(links, path);
      var o := Issue();  // mkdir -p
      if !o.Done? { return false; }
      if data == [] {
        o := Store(dest, []);
        if !o.Unreachable? { EmptyUploadStoresIff(links, old(disk), plan, old(issued), path); }
        return !o.Unreachable?;
      }
      ok := UploadContents(dest, data);
    }

    /** The loop over the files. */
    method UploadEach(files: map<string, Bytes>) returns (ok: bool)
      modifies this
      ensures issued >= old(issued)
      ensures Smooth(old(issued)) ==> ok
      ensures Elsewhere(links, files.Keys, old(disk), disk)
      ensures ok && OneToOne(links, files.Keys) ==>
                AllSettled(links, plan, old(issued), issued, old(disk), disk, files, files.Keys)
      ensures ok && OneToOne(links, files.Keys) && (Smooth(old(issued)) || [] !in files.Values) ==>
                Uploaded(links, disk, files, files.Keys)
    {
      var todo := files.Keys;
      while todo != {}
        invariant todo <= files.Keys && issued >= old(issued)
        invariant Elsewhere(links, files.Keys, old(disk), disk)
        invariant OneToOne(links, files.Keys) ==>
                    AllSettled(links, plan, old(issued), issued, old(disk), disk, files, files.Keys - todo)
        invariant forall p | p in todo && OneToOne(links, files.Keys) ::
                    Lookup(disk, Dest(links, p)) == Lookup(old(disk), Dest(links, p))
        decreases todo
      {
        var path :| path in todo;
        label before:
        ok := UploadFile(path, files[path]);
        ElsewhereStep(links, files.Keys, path, old(disk), old@before(disk), disk);
        if !ok { return; }
        if OneToOne(links, files.Keys) {
          SettledSince(links, plan, old(issued), old@before(issued), issued, old(disk), old@before(disk), disk,
                       path, files[path]);
          SettledStep(links, plan, old(issued), old@before(issued), issued, old(disk), old@before(disk), disk,
                      files, files.Keys - todo, path);
          assert files.Keys - (todo - {path}) == files.Keys - todo + {path};
          forall p | p in todo - {path} { OtherDestStays(links, old@before(disk), disk, path, p); }
        }
        todo := todo - {path};
      }
      if OneToOne(links, files.Keys) && (Smooth(old(issued)) || [] !in files.Values) {
        assert files.Keys - todo == files.Keys;
        SettledIsUploaded(links, plan, old(issued), issued, old(disk), disk, files);
      }
      return true;
    }

    /** Every file, in an arbitrary order. Only the destinations change. When no two paths share a
        destination, success settles every file: it is stored, unless the creation of an empty one was
        refused. */
    method UploadFiles(files: map<string, Bytes>) returns (ok: bool)
      modifies this
      ensures issued >= old(issued)
      ensures Smooth(old(issued)) ==> ok
      ensures Elsewhere(links, files.Keys, old(disk), disk)
      ensures ok && OneToOne(links, files.Keys) ==>
                AllSettled(links, plan, old(issued), issued, old(disk), disk, files, files.Keys)
      ensures ok && OneToOne(links, files.Keys) && (Smooth(old(issued)) || [] !in files.Values) ==>
                Uploaded(links, disk, files, files.Keys)
      ensures Smooth(old(issued)) && (OneToOne(links, files.Keys) || exists p :: files.Keys == {p}) ==>
                forall p, q | p in files && Spells(p, q) :: StoredAs(links, disk, p, q, files[p])
    {
      ok := UploadEach(files);
      UploadedAs(links, disk, files);
    }

    /** What an export sees. */
    function Sees(): View
      reads this`disk
    {
      ViewOf(links, disk)
    }

    /** The readlink or the -f tests; a refused command prints nothing. */
    method FindFile(path: string) returns (out: Option<string>)
      requires Valid()
      modifies this`issued
      ensures issued == old(issued) + 1
      ensures out == if plan(old(issued)).Unreachable? then None
                     else if plan(old(issued)).Done? && Target(links, disk, path).Some? then Target(links, disk, path)
                     else Some("")
      ensures Target(links, disk, path) != Some("")
    {
      var o := Issue();
      LocateIsAbsolute(links, disk, path);
      if Locate(links, disk, path).Some? { PrintedLine(Locate(links, disk, path).value); }
      if o.Unreachable? { return None; }
      if o.Done? && Locate(links, disk, path).Some? {
        return Some(TrimSpace(Locate(links, disk, path).value + "\n"));
      }
      return Some("");
    }

    /** dd of one block piped into base64; a missing file prints nothing, a refused command what it got to. */
    method ReadBlock(name: string, skip: nat) returns (out: Option<string>)
      modifies this`issued
      ensures issued == old(issued) + 1
      ensures out.None? <==> plan(old(issued)).Unreachable?
      ensures var b := Block(Content(links, disk, name), skip);
              match plan(old(issued))
              case Done => out == Some(Encode(b))
              case Refused(_, read, printed) =>
                var s := Encode(FirstBytes(b, read));
                out == Some(if printed < |s| then s[..printed] else s)
              case Unreachable(_) => out == None
    {
      var o := Issue();
      if o.Unreachable? { return None; }
      var b := Block(Content(links, disk, name), skip);
      if o.Done? { return Some(Encode(b)); }
      var s := Encode(FirstBytes(b, o.read));
      return Some(if o.printed < |s| then s[..o.printed] else s);
    }

    /** A block as the client decodes it; the exit status is not looked at. */
    method NextBlock(name: string, skip: nat) returns (r: Result<Bytes, ExportError>)
      modifies this`issued
      ensures issued == old(issued) + 1
      ensures r == Arrives(plan(old(issued)), Block(Content(links, disk, name), skip))
    {
      ghost var o := plan(issued);
      ghost var b := Block(Content(links, disk, name), skip);
      if o.Refused? { b := FirstBytes(b, o.read); }
      var out := ReadBlock(name, skip);
      if out.None? { return Err(CommandFailed); }
      Transported(b);
      EncodedLength(b);
      if o.Refused? && o.printed < Letters(|b|) { PartTransported(b, o.printed); }
      var raw := TrimSpace(out.value);
      if raw == "" { return Ok([]); }
      var chunk := Decode(DropNewlines(raw));
      if chunk.None? { return Err(BadOutput); }
      return Ok(chunk.value);
    }

    /** One file, block by block, on a budget shared with the files before it: on every answer of the
        sandbox it returns what ReadFrom says, after as many commands, so it ends even for a file larger
        than the budget; it returns the whole file exactly when that fits and its blocks are delivered. */
    method ExportFile(name: string, before: nat) returns (r: Result<Bytes, ExportError>)
      requires before <= MAX_ARTIFACT_TOTAL
      modifies this`issued
      ensures var rd := ReadFrom(Content(links, disk, name), plan, old(issued), 0, before);
              r == rd.r && issued == old(issued) + rd.commands
      ensures old(issued) < issued <= old(issued) + |Content(links, disk, name)| / EXPORT_CHUNK + 1
      ensures r.Ok? ==> r.value <= Content(links, disk, name) && before + |r.value| <= MAX_ARTIFACT_TOTAL
      ensures r == Ok(Content(links, disk, name)) <==>
                before + |Content(links, disk, name)| <= MAX_ARTIFACT_TOTAL
                && ReadsWhole(Content(links, disk, name), plan, old(issued), 0)
      ensures Smooth(old(issued)) ==>
                r == if before + |Content(links, disk, name)| <= MAX_ARTIFACT_TOTAL then Ok(Content(links, disk, name))
                     else Err(TooLarge)
      ensures r.Err? && r.error != TooLarge ==> !Smooth(old(issued))
      ensures r == Err(TooLarge) ==> before + |Content(links, disk, name)| > MAX_ARTIFACT_TOTAL
    {
      ghost var whole := Content(links, disk, name);
      ReadFacts(whole, plan, issued, 0, before);
      ReadIsWholeIff(whole, plan, issued, 0, before);
      if AllDone(plan, issued, issued + ReadFrom(whole, plan, issued, 0, before).commands) {
        SmoothRead(whole, plan, issued, 0, before);
      }
      r := ReadBlocks(name, before);
    }

    /** The block loop. */
    method ReadBlocks(name: string, before: nat) returns (r: Result<Bytes, ExportError>)
      modifies this`issued
      ensures var rd := ReadFrom(Content(links, disk, name), plan, old(issued), 0, before);
              r == rd.r && issued == old(issued) + rd.commands
    {
      ghost var whole, at := Content(links, disk, name), issued;
      ghost var rd := ReadFrom(whole, plan, at, 0, before);
      var buf: Bytes, skip := [], 0;
      while true
        invariant skip * EXPORT_CHUNK <= |whole| && buf == whole[..skip * EXPORT_CHUNK] && issued == at + skip
        invariant rd == ReadFrom(whole, plan, at, skip, before)
        decreases |whole| - skip * EXPORT_CHUNK
      {
        var chunk := NextBlock(name, skip);
        TurnOfLoop(whole, plan, at, skip, before, buf, chunk);
        if chunk.Err? { return chunk; }
        if chunk.value == [] { return Ok(buf); }
        if before + |buf| + |chunk.value| > MAX_ARTIFACT_TOTAL { return Err(TooLarge); }
        buf := buf + chunk.value;
        if |chunk.value| < EXPORT_CHUNK { return Ok(buf); }
        skip := skip + 1;
      }
    }

    /** One path, after those before it. */
    method ExportPath(path: string, out: map<string, Bytes>, exported: map<string, Bytes>, total: nat)
      returns (err: Option<ExportError>, out': map<string, Bytes>, exported': map<string, Bytes>, total': nat)
      requires Valid() && total <= MAX_ARTIFACT_TOTAL
      modifies this`issued
      ensures State(out', exported', total', issued, err)
              == NextState(Sees(), plan, State(out, exported, total, old(issued), None), path)
    {
      err, out', exported', total' := None, out, exported, total;
      var name := FindFile(path);
      if name.None? {
        err := Some(CommandFailed);
        return;
      }
      if name.value == "" { return; }
      if name.value in exported {
        out' := out[path := exported[name.value]];
        return;
      }
      var data := ExportFile(name.value, total);
      if data.Err? {
        err := Some(data.error);
        return;
      }
      total' := total + |data.value|;
      exported', out' := exported[name.value := data.value], out[path := data.value];
    }

    /** Every path in turn; a file already read is not read or counted again. On every answer of the sandbox
        the result is what Run says. It succeeds with all located files whole exactly when they fit and
        every path is served; when all commands do their work the size alone decides; and whatever is
        refused, it returns only beginnings of the located files. */
    method ExportFiles(paths: seq<string>) returns (r: Result<map<string, Bytes>, ExportError>)
      requires Valid()
      modifies this`issued
      ensures var st := Run(Sees(), plan, old(issued), paths);
              issued == st.at && r == if st.err.None? then Ok(st.out) else Err(st.err.value)
      ensures r == Ok(Exports(Sees(), paths)) <==>
                && Served(Sees(), plan, old(issued), paths)
                && Sum(Volumes(Sees(), Targets(Sees(), paths))) <= 64 * 1024 * 1024
      ensures Smooth(old(issued)) ==>
                r == if Sum(Volumes(Sees(), Targets(Sees(), paths))) <= 64 * 1024 * 1024
                     then Ok(Exports(Sees(), paths)) else Err(TooLarge)
      ensures r.Ok? ==> Beginnings(Sees(), paths, r.value)
      ensures r.Ok? && Smooth(old(issued)) ==>
                forall p, q | p in paths && Spells(p, q) :: ComesBack(links, disk, r.value, p, q)
    {
      forall p, q | p in paths && Spells(p, q) ensures ComesBack(links, disk, Exports(Sees(), paths), p, q) {
        ExportComesBack(links, disk, paths, p, q);
      }
      ghost var v := Sees();
      ghost var end := Run(v, plan, issued, paths);
      ExportIsWholeIff(v, plan, issued, paths);
      RunGivesBeginnings(v, plan, issued, paths);
      if AllDone(plan, issued, end.at) { SmoothRunIsExact(v, plan, issued, paths); }
      r := ExportAll(paths);
    }

    /** The loop over the paths. */
    method ExportAll(paths: seq<string>) returns (r: Result<map<string, Bytes>, ExportError>)
      requires Valid()
      modifies this`issued
      ensures var st := Run(Sees(), plan, old(issued), paths);
              issued == st.at && r == if st.err.None? then Ok(st.out) else Err(st.err.value)
    {
      ghost var v := Sees();
      var out: map<string, Bytes>, exported: map<string, Bytes>, total: nat, i := map[], map[], 0, 0;
      while i < |paths|
        invariant i <= |paths| && Run(v, plan, old(issued), paths[..i]) == State(out, exported, total, issued, None)
      {
        RunOneMore(v, plan, old(issued), paths, i);
        StartsNoEarlier(v, plan, old(issued), paths[..i]);
        var err;
        err, out, exported, total := ExportPath(paths[i], out, exported, total);
        if err.Some? {
          ErrorStays(v, plan, old(issued), paths, i + 1);
          return Err(err.value);
        }
        i := i + 1;
      }
      assert paths[..i] == paths;
      return Ok(out);
    }
  }
}

/** Installing an application with its companion files, and putting everything back when that fails. */
module AppInstall {
  import opened AppFiles
  import opened Wrappers

  function ChecksumPath(binary: Path): Path {
    Path(binary.dir, binary.name + ".sha256")
  }

  // The hexadecimal digest of a program; a record is its digest and a newline.
  type Digest = string -> string

  ghost predicate Matches(digest: Digest, files: Files, binary: Path) {
    binary in files && Content(files, ChecksumPath(binary)) == Some(digest(files[binary]) + "\n")
  }

  lemma RecordIsApart(binary: Path)
    ensures ChecksumPath(binary) != binary
  {
    assert |ChecksumPath(binary).name| == |binary.name| + 7;
  }

  method WriteChecksum(host: Host, binary: Path, sum: string) returns (ok: bool)
    modifies host`calls, host`files
    ensures host.files == if ok then old(host.files)[ChecksumPath(binary) := sum + "\n"] else old(host.files)
    ensures host.calls == old(host.calls) + 1
    ensures ok <==> host.answers(old(host.calls)) && ChecksumPath(binary) !in host.irregular
  {
    ok := host.Write(ChecksumPath(binary), sum + "\n");
  }

  method WriteChecksumForFile(host: Host, digest: Digest, binary: Path) returns (ok: bool)
    modifies host`calls, host`files
    ensures ok ==> binary in old(host.files) && host.files == old(host.files)[ChecksumPath(binary) := digest(old(host.files)[binary]) + "\n"]
    ensures ok ==> Matches(digest, host.files, binary)
    ensures !ok ==> host.files == old(host.files)
    ensures ok <==>
      && binary in old(host.files) && host.answers(old(host.calls)) && host.answers(old(host.calls) + 1)
      && binary !in host.irregular && ChecksumPath(binary) !in host.irregular
    ensures ok ==> host.calls == old(host.calls) + 2
    ensures host.calls > old(host.calls)
  {
    RecordIsApart(binary);
    var r := host.Read(binary);
    if !r.Found? { return false; }
    ok := WriteChecksum(host, binary, digest(r.content));
  }

  // ----- Companions

  /** A companion's name is not a path. */
  predicate SafeName(name: string) {
    name != "" && (name == "/" || '/' !in name)
  }

  ghost predicate AllSafe(names: seq<string>) {
    forall n :: n in names ==> SafeName(n)
  }

  method RestoreInstalledFiles(host: Host, log: seq<Saved>) returns (ok: bool)
    modifies host`calls, host`files
    ensures ok ==> host.files == Undo(old(host.files), log)
    ensures host.DiskWorks() ==> ok
    ensures host.calls >= old(host.calls)
  {
    ok := true;
    var index := |log|;
    assert log[..index] == log;
    while index > 0
      invariant index <= |log|
      invariant host.calls >= old(host.calls) && (host.DiskWorks() ==> ok)
      invariant ok ==> Undo(host.files, log[..index]) == Undo(old(host.files), log)
    {
      index := index - 1;
      assert log[..index + 1][..index] == log[..index] && log[..index + 1][index] == log[index];
      var file := log[index];
      var done;
      if file.content.Some? {
        done := host.Write(file.path, file.content.value);
      } else {
        done := host.Remove(file.path);
      }
      ok := ok && done;
    }
  }

  /** One companion, if it lies beside the current program; `before` is how the files were before the first one. */
  method InstallCompanion(host: Host, current: Path, binary: Path, name: string, log: seq<Saved>,
                          ghost before: Files, ghost steps: seq<(Path, string)>)
    returns (ok: bool, log': seq<Saved>, restored: bool, ghost steps': seq<(Path, string)>)
    requires Logs(log, before, steps) && host.files == Installed(before, steps)
    modifies host`calls, host`files
    ensures ok ==> Logs(log', before, steps') && host.files == Installed(before, steps')
    ensures ok ==> (steps' == steps && host.files == old(host.files) && Content(host.files, Path(current.dir, name)) == None)
                   || exists content :: Content(old(host.files), Path(current.dir, name)) == Some(content)
                                 && steps' == steps + [(Path(binary.dir, name), content)]
                                 && host.files == old(host.files)[Path(binary.dir, name) := content]
    ensures !ok && restored ==> host.files == before
    ensures host.DiskWorks() ==> restored && (SafeName(name) ==> ok)
    ensures host.calls >= old(host.calls)
    ensures ok ==> SafeName(name) && name != "" && (name == "/" || '/' !in name)
  {
    hide Undo, Installed, Logs, Content;
    log', steps', ok, restored := log, steps, false, true;
    var (source, target) := (Path(current.dir, name), Path(binary.dir, name));
    UndoAll(before, log, steps);
    if !SafeName(name) {
      restored := RestoreInstalledFiles(host, log);
      return;
    }
    var found := host.Read(source);
    if found.Missing? { return true, log, true, steps; }
    if found.Failed? {
      restored := RestoreInstalledFiles(host, log);
      return;
    }
    var previous := host.Read(target);
    if previous.Failed? {
      restored := RestoreInstalledFiles(host, log);
      return;
    }
    LogsMore(log, before, steps, target, found.content);
    log' := log + [Saved(target, if previous.Found? then Some(previous.content) else None)];
    var copied := host.Write(target, found.content);
    if !copied {
      assert log'[..|log'| - 1] == log;
      UndoLast(before, log', steps);
      restored := RestoreInstalledFiles(host, log');
      return;
    }
    steps' := steps + [(target, found.content)];
    ok := true;
  }

  ghost predicate Copied(before: Files, files: Files, current: Path, binary: Path, names: seq<string>) {
    current.dir != binary.dir ==>
      && (forall n :: Content(files, Path(current.dir, n)) == Content(before, Path(current.dir, n)))
      && (forall n :: n in names && Path(current.dir, n) in before ==> Content(files, Path(binary.dir, n)) == Content(before, Path(current.dir, n)))
  }

  lemma CopiedMore(before: Files, files: Files, more: Files, current: Path, binary: Path, names: seq<string>, name: string)
    requires Copied(before, files, current, binary, names)
    requires (more == files && Content(files, Path(current.dir, name)) == None)
             || exists content :: Content(files, Path(current.dir, name)) == Some(content) && more == files[Path(binary.dir, name) := content]
    ensures Copied(before, more, current, binary, names + [name])
  {
    if current.dir != binary.dir {
      forall n ensures Content(more, Path(current.dir, n)) == Content(before, Path(current.dir, n)) {
        assert Path(current.dir, n) != Path(binary.dir, name);
        assert Content(files, Path(current.dir, n)) == Content(before, Path(current.dir, n));
      }
    }
  }

  ghost predicate Writes(steps: seq<(Path, string)>, p: Path) {
    exists i :: 0 <= i < |steps| && steps[i].0 == p
  }

  /** Written over are exactly the files named like a companion that lies beside the current program. */
  ghost predicate Brought(steps: seq<(Path, string)>, before: Files, files: Files, current: Path, binary: Path, names: seq<string>) {
    && (forall n :: Writes(steps, Path(binary.dir, n)) <==> n in names && Path(current.dir, n) in before)
    && (forall n :: Path(current.dir, n) in files <==> Path(current.dir, n) in before)
  }

  lemma BroughtMore(steps: seq<(Path, string)>, more: seq<(Path, string)>, before: Files, files: Files, after: Files,
                    current: Path, binary: Path, names: seq<string>, name: string)
    requires Brought(steps, before, files, current, binary, names)
    requires (more == steps && after == files && Content(files, Path(current.dir, name)) == None)
             || exists content :: Content(files, Path(current.dir, name)) == Some(content)
                                  && more == steps + [(Path(binary.dir, name), content)] && after == files[Path(binary.dir, name) := content]
    ensures Brought(more, before, after, current, binary, names + [name])
  {
    forall n
      ensures Writes(more, Path(binary.dir, n)) <==> Writes(steps, Path(binary.dir, n)) || (more != steps && n == name)
    {
      if i :| 0 <= i < |steps| && steps[i].0 == Path(binary.dir, n) { assert more[i].0 == Path(binary.dir, n); }
      if more != steps { assert more[|steps|].0 == Path(binary.dir, name); }
      assert forall i :: 0 <= i < |steps| ==> more[i] == steps[i];
    }
  }

  lemma LoggedIsWritten(log: seq<Saved>, files: Files, steps: seq<(Path, string)>, p: Path)
    requires Logs(log, files, steps)
    ensures Logged(log, p) <==> Writes(steps, p)
  {
    hide Installed, Content;
    if i :| 0 <= i < |log| && log[i].path == p { assert steps[i].0 == p; }
    if i :| 0 <= i < |steps| && steps[i].0 == p { assert log[i].path == p; }
  }

  /** Install each companion that lies beside the current program; on a failure put back the ones installed. */
  method InstallCompanions(host: Host, current: Path, binary: Path, names: seq<string>)
    returns (ok: bool, log: seq<Saved>, restored: bool, ghost steps: seq<(Path, string)>)
    modifies host`calls, host`files
    ensures ok ==> Logs(log, old(host.files), steps) && host.files == Installed(old(host.files), steps)
    ensures ok ==> Copied(old(host.files), host.files, current, binary, names)
    ensures ok ==> Brought(steps, old(host.files), host.files, current, binary, names)
    ensures !ok && restored ==> host.files == old(host.files)
    ensures host.DiskWorks() ==> restored && (AllSafe(names) ==> ok)
    ensures host.calls >= old(host.calls)
    ensures ok ==> AllSafe(names)
  {
    hide Content, Installed, Logs, Brought, Copied, SafeName;
    log, steps, ok, restored := [], [], false, true;
    NoCompanions(host.files, current, binary);
    for i := 0 to |names|
      invariant Logs(log, old(host.files), steps) && host.files == Installed(old(host.files), steps)
      invariant Copied(old(host.files), host.files, current, binary, names[..i])
      invariant Brought(steps, old(host.files), host.files, current, binary, names[..i])
      invariant host.calls >= old(host.calls) && forall n :: n in names[..i] ==> SafeName(n)
      invariant host.DiskWorks() ==> restored
    {
      ghost var (files, done) := (host.files, steps);
      ok, log, restored, steps := InstallCompanion(host, current, binary, names[i], log, old(host.files), steps);
      if !ok { return; }
      assert names[..i + 1] == names[..i] + [names[i]];
      CopiedMore(old(host.files), files, host.files, current, binary, names[..i], names[i]);
      BroughtMore(done, steps, old(host.files), files, host.files, current, binary, names[..i], names[i]);
    }
    assert names[..|names|] == names;
    ok := true;
  }

  lemma NoCompanions(files: Files, current: Path, binary: Path)
    ensures Logs([], files, []) && Installed(files, []) == files
    ensures Brought([], files, files, current, binary, []) && Copied(files, files, current, binary, [])
  {}

  lemma UndoAll(files: Files, log: seq<Saved>, steps: seq<(Path, string)>)
    requires Logs(log, files, steps)
    ensures Undo(Installed(files, steps), log) == files
  {
    forall p
      ensures Content(Undo(Installed(files, steps), log), p) == Content(files, p)
    {
      UndoRestores(Installed(files, steps), log, files, steps, p);
      if !Logged(log, p) {
        UntouchedUnlessLogged(files, log, steps, p);
      }
    }
    SameFiles(Undo(Installed(files, steps), log), files);
  }

  lemma SameFiles(a: Files, b: Files)
    requires forall p :: Content(a, p) == Content(b, p)
    ensures a == b
  {
    assert forall p :: (p in a <==> p in b) && (p in a ==> a[p] == b[p]) by {
      forall p ensures (p in a <==> p in b) && (p in a ==> a[p] == b[p]) {
        assert Content(a, p) == Content(b, p);
      }
    }
  }

  /** The log may run one entry ahead of the steps: its write did not take effect. */
  lemma UndoLast(files: Files, log: seq<Saved>, steps: seq<(Path, string)>)
    requires |log| > 0 && Logs(log[..|log| - 1], files, steps)
    requires log[|log| - 1].content == Content(Installed(files, steps), log[|log| - 1].path)
    ensures Undo(Installed(files, steps), log) == files
  {
    var last := log[|log| - 1];
    assert WithContent(Installed(files, steps), last.path, last.content) == Installed(files, steps);
    UndoAll(files, log[..|log| - 1], steps);
  }

  // ----- The installation

  /** Put back the binary that was installed before, with its record, or remove both when there was none. */
  method RestoreInstallBinary(host: Host, digest: Digest, binary: Path, knownGood: Option<string>) returns (ok: bool)
    modifies host`calls, host`files
    ensures ok ==> host.files == Restored(digest, old(host.files), binary, knownGood)
    ensures host.DiskWorks() ==> ok
    ensures host.calls > old(host.calls)
  {
    RecordIsApart(binary);
    if knownGood.Some? {
      ok := host.Write(binary, knownGood.value);
      if ok { ok := WriteChecksumForFile(host, digest, binary); }
    } else {
      ok := host.Remove(binary);
      var also := host.Remove(ChecksumPath(binary));
      ok := ok && also;
    }
  }

  function Restored(digest: Digest, files: Files, binary: Path, knownGood: Option<string>): Files {
    match knownGood
    case Some(content) => files[binary := content][ChecksumPath(binary) := digest(content) + "\n"]
    case None => files - {binary} - {ChecksumPath(binary)}
  }

  /** The record is in order for what is installed: right for a binary, absent without one. */
  ghost predicate RecordInOrder(digest: Digest, files: Files, binary: Path) {
    if binary in files then Matches(digest, files, binary) else ChecksumPath(binary) !in files
  }

  /** No companion is named like the binary or like its record. */
  predicate Apart(binary: Path, companions: seq<string>) {
    binary.name !in companions && ChecksumPath(binary).name !in companions
  }

  // How far an installation got.
  datatype Progress = Untouched | BinaryOnly | WithCompanions | Complete

  ghost predicate PutBack(digest: Digest, before: Files, after: Files, binary: Path) {
    && (forall p :: p != ChecksumPath(binary) ==> Content(after, p) == Content(before, p))
    && RecordInOrder(digest, after, binary)
  }

  /** A companion of this name is installed over what stands beside the binary: it is asked for, and it lies
      beside the current program by the time the binary and its record are in place. */
  ghost predicate Brings(before: Files, current: Path, binary: Path, companions: seq<string>, name: string) {
    name in companions
    && (Path(current.dir, name) in before || Path(current.dir, name) == binary || Path(current.dir, name) == ChecksumPath(binary))
  }

  function Replaced(digest: Digest, before: Files, binary: Path, program: string): Files {
    before[binary := program][ChecksumPath(binary) := digest(program) + "\n"]
  }

  /** The files once the binary, its record and then the companions are in place. */
  ghost predicate WasInstalled(digest: Digest, before: Files, files: Files, current: Path, binary: Path, companions: seq<string>,
                               log: seq<Saved>, steps: seq<(Path, string)>)
    requires current in before
  {
    var replaced := Replaced(digest, before, binary, before[current]);
    && Logs(log, replaced, steps) && files == Installed(replaced, steps)
    && Brought(steps, replaced, files, current, binary, companions)
  }

  lemma LoggedIffBrought(digest: Digest, before: Files, files: Files, current: Path, binary: Path, companions: seq<string>,
                         log: seq<Saved>, steps: seq<(Path, string)>, name: string)
    requires current in before && WasInstalled(digest, before, files, current, binary, companions, log, steps)
    ensures Logged(log, Path(binary.dir, name)) <==> Brings(before, current, binary, companions, name)
  {
    hide Logged, Logs, Installed;
    LoggedIsWritten(log, Replaced(digest, before, binary, before[current]), steps, Path(binary.dir, name));
  }

  /**
   * What a late failure puts back, with restore steps that succeed. Every other file is as before; the old binary
   * is back exactly when no companion was installed over it, and the record is in order exactly when both or none
   * of the binary and the record were, unless the old and the new program share a digest.
   */
  ghost predicate LateUndo(digest: Digest, before: Files, after: Files, current: Path, binary: Path, companions: seq<string>)
    requires current in before
  {
    var (program, record) := (Brings(before, current, binary, companions, binary.name),
                              Brings(before, current, binary, companions, ChecksumPath(binary).name));
    && (forall p :: p != binary && p != ChecksumPath(binary) ==> Content(after, p) == Content(before, p))
    && Content(after, binary) == (if program then Content(before, current) else Content(before, binary))
    && (Content(after, binary) == Content(before, binary) <==> !program || Content(before, binary) == Content(before, current))
    && (RecordInOrder(digest, after, binary)
        <==> (program <==> record) || (binary in before && digest(before[binary]) == digest(before[current])))
  }

  /** Putting back the binary and its record first and then undoing the companions does exactly that. */
  lemma UndoneInstallation(digest: Digest, before: Files, files: Files, current: Path, binary: Path, companions: seq<string>,
                           log: seq<Saved>, steps: seq<(Path, string)>)
    requires current in before && WasInstalled(digest, before, files, current, binary, companions, log, steps)
    ensures LateUndo(digest, before, Undo(Restored(digest, files, binary, Content(before, binary)), log), current, binary, companions)
  {
    hide Undo, Installed, Logs, Logged, Brought, Brings, LateUndo;
    RecordIsApart(binary);
    var record := ChecksumPath(binary);
    var replaced := Replaced(digest, before, binary, before[current]);
    var restored := Restored(digest, files, binary, Content(before, binary));
    var after := Undo(restored, log);
    LoggedIffBrought(digest, before, files, current, binary, companions, log, steps, binary.name);
    LoggedIffBrought(digest, before, files, current, binary, companions, log, steps, record.name);
    UndoRestores(restored, log, replaced, steps, binary);
    UndoRestores(restored, log, replaced, steps, record);
    forall p | p != record && p != binary
      ensures Content(after, p) == Content(before, p)
    {
      UndoRestores(restored, log, replaced, steps, p);
      if !Logged(log, p) {
        UntouchedUnlessLogged(replaced, log, steps, p);
      }
    }
    TwoFilesDecide(digest, before, after, current, binary, companions);
  }

  /** In so many words: when the old binary is back, and when whatever is there matches its record. */
  lemma OldBinaryIsBackIff(digest: Digest, before: Files, files: Files, current: Path, binary: Path, companions: seq<string>,
                           log: seq<Saved>, steps: seq<(Path, string)>)
    requires current in before && WasInstalled(digest, before, files, current, binary, companions, log, steps)
    ensures var after := Undo(Restored(digest, files, binary, Content(before, binary)), log);
            var (program, record) := (Brings(before, current, binary, companions, binary.name),
                                      Brings(before, current, binary, companions, ChecksumPath(binary).name));
            && (Content(after, binary) == Content(before, binary) <==> !program || Content(before, binary) == Content(before, current))
            && (RecordInOrder(digest, after, binary)
                <==> (program <==> record) || (binary in before && digest(before[binary]) == digest(before[current])))
  {
    hide Undo, Restored, WasInstalled, RecordInOrder, Brings;
    UndoneInstallation(digest, before, files, current, binary, companions, log, steps);
  }

  lemma SameRecord(a: string, b: string)
    ensures a + "\n" == b + "\n" <==> a == b
  {
    if a + "\n" == b + "\n" {
      assert (a + "\n")[..|a|] == a && (b + "\n")[..|b|] == b;
    }
  }

  /** The two files a companion can disturb, in the four ways it can. */
  lemma TwoFilesDecide(digest: Digest, before: Files, after: Files, current: Path, binary: Path, companions: seq<string>)
    requires current in before
    requires forall p :: p != binary && p != ChecksumPath(binary) ==> Content(after, p) == Content(before, p)
    requires Content(after, binary) == if Brings(before, current, binary, companions, binary.name) then Content(before, current) else Content(before, binary)
    requires Content(after, ChecksumPath(binary)) ==
             if Brings(before, current, binary, companions, ChecksumPath(binary).name) then Some(digest(before[current]) + "\n")
             else if binary in before then Some(digest(before[binary]) + "\n") else None
    ensures LateUndo(digest, before, after, current, binary, companions)
  {
    hide Brings, ChecksumPath;
    if binary in before {
      SameRecord(digest(before[binary]), digest(before[current]));
    }
  }

  /** When no companion is named like the binary or its record, everything is back. */
  lemma ApartIsPutBack(digest: Digest, before: Files, after: Files, current: Path, binary: Path, companions: seq<string>)
    requires current in before && LateUndo(digest, before, after, current, binary, companions) && Apart(binary, companions)
    ensures PutBack(digest, before, after, binary)
  {}

  /** Every companion that lay beside the program is installed, unless it was installed from the same directory. */
  ghost predicate CompanionsInPlace(before: Files, files: Files, current: Path, binary: Path, names: seq<string>) {
    current.dir != binary.dir ==> forall n :: n in names && Path(current.dir, n) in before ==>
      Content(files, Path(binary.dir, n)) == Content(before, Path(current.dir, n))
  }

  lemma CopiedIsInPlace(before: Files, replaced: Files, files: Files, current: Path, binary: Path, program: string,
       record: string, names: seq<string>)
    requires replaced == before[binary := program][ChecksumPath(binary) := record] && Copied(replaced, files, current, binary, names)
    ensures CompanionsInPlace(before, files, current, binary, names)
  {
    if current.dir != binary.dir {
      forall n | n in names && Path(current.dir, n) in before
        ensures Content(files, Path(binary.dir, n)) == Content(before, Path(current.dir, n))
      {
        assert Path(current.dir, n) != binary && Path(current.dir, n) != ChecksumPath(binary);
        assert Content(replaced, Path(current.dir, n)) == Content(before, Path(current.dir, n));
        assert Path(current.dir, n) in replaced;
      }
    }
  }

  /** The data directory, both programs and the place to install to are accessible; `c` is the first call made. */
  predicate PlacesBinary(host: Host, c: nat, files: Files, current: Path, binary: Path, hasDataDir: bool) {
    var d := if hasDataDir then c + 1 else c;
    && (hasDataDir ==> host.answers(c))
    && host.answers(d) && host.answers(d + 1) && host.answers(d + 2)
    && current in files && current !in host.irregular && binary !in host.irregular
  }

  /** Up to the new program in the place of the old one, which is read first. */
  method PlaceBinary(host: Host, current: Path, binary: Path, hasDataDir: bool)
    returns (placed: bool, knownGood: Option<string>, program: string)
    modifies host`calls, host`files
    ensures placed <==> PlacesBinary(host, old(host.calls), old(host.files), current, binary, hasDataDir)
    ensures !placed ==> host.files == old(host.files)
    ensures placed ==> knownGood == Content(old(host.files), binary) && Content(old(host.files), current) == Some(program)
    ensures placed ==> current in old(host.files) && old(host.files)[current] == program
    ensures placed ==> host.files == old(host.files)[binary := program] && Content(host.files, binary) == Some(program)
    ensures host.calls >= old(host.calls)
  {
    placed, knownGood, program := false, None, "";
    if hasDataDir {
      var made := host.answers(host.calls);
      host.calls := host.calls + 1;
      if !made { return; }
    }
    var before := host.Read(binary);
    if before.Failed? { return; }
    knownGood := if before.Found? then Some(before.content) else None;
    var found := host.Read(current);
    if !found.Found? { return; }
    program := found.content;
    placed := host.Write(binary, program);
  }

  /** Install the program at `current` as `binary`, register it as a service and wait until it is healthy. */
  method InstallCurrent(host: Host, digest: Digest, current: Path, binary: Path, companions: seq<string>,
                        hasDataDir: bool, checksHealth: bool)
    returns (ok: bool, restored: bool, ghost progress: Progress, ghost start: nat)
    modifies host
    ensures ok <==> progress == Complete
    ensures ok && Apart(binary, companions) ==>
      && Content(host.files, binary) == Content(old(host.files), current) && Matches(digest, host.files, binary)
      && host.running == Content(host.files, binary) && (checksHealth ==> host.healthy)
    ensures ok ==> CompanionsInPlace(old(host.files), host.files, current, binary, companions)
    ensures progress == Untouched ==> host.files == old(host.files)
    ensures !ok && restored && progress == BinaryOnly ==> PutBack(digest, old(host.files), host.files, binary)
    ensures !ok && restored && progress == WithCompanions ==>
      current in old(host.files) && LateUndo(digest, old(host.files), host.files, current, binary, companions)
    ensures !ok && restored && progress == WithCompanions && Apart(binary, companions) ==>
      PutBack(digest, old(host.files), host.files, binary)
    ensures host.DiskWorks() && current in old(host.files) && AllSafe(companions) ==>
      restored && progress in {WithCompanions, Complete}
    // when it replaces the binary at all
    ensures progress != Untouched <==> PlacesBinary(host, old(host.calls), old(host.files), current, binary, hasDataDir)
    ensures progress == Untouched ==> restored
    // when it succeeds
    ensures ok ==> current in old(host.files) && AllSafe(companions)
    ensures host.DiskWorks() && (forall n :: host.services(n)) ==>
      (ok <==> current in old(host.files) && AllSafe(companions))
    ensures progress in {WithCompanions, Complete} ==>
      && start >= old(host.calls) && (ok <==> Activated(host, start, checksHealth))
      && (!ok ==> ServiceLeft(host, start, Content(old(host.files), binary).Some?, Content(host.files, binary)))
    ensures progress in {Untouched, BinaryOnly} ==> host.running == old(host.running) && host.healthy == old(host.healthy)
    ensures (forall n :: !host.services(n)) ==> !ok
  {
    hide Undo, Installed, Logs, Logged, PutBack, Brought, Copied, CompanionsInPlace, Matches, ChecksumPath, Restored,
         Content, LateUndo, WasInstalled, AllSafe, Replaced, ServiceLeft;
    RecordIsApart(binary);
    ok, restored, progress, start := false, true, Untouched, 0;
    var placed, knownGood, program := PlaceBinary(host, current, binary, hasDataDir);
    if !placed { return; }
    progress := BinaryOnly;
    BackFromReplaced(digest, old(host.files), binary, program);
    var recorded := WriteChecksumForFile(host, digest, binary);
    if !recorded {
      restored := RestoreInstallBinary(host, digest, binary, knownGood);
      return;
    }
    ghost var replaced := host.files;
    InstalledWithRecord(digest, old(host.files), binary, program);
    var installed, log, undone, steps := InstallCompanions(host, current, binary, companions);
    if !installed {
      restored := RestoreInstallBinary(host, digest, binary, knownGood);
      restored := restored && undone;
      return;
    }
    progress := WithCompanions;
    ItWasInstalled(digest, old(host.files), host.files, current, binary, companions, log, steps);
    CopiedIsInPlace(old(host.files), replaced, host.files, current, binary, program, digest(program) + "\n", companions);
    UndoneInstallation(digest, old(host.files), host.files, current, binary, companions, log, steps);
    ApartCompanions(digest, old(host.files), host.files, current, binary, companions, log, steps);
    start := host.calls;
    ok, restored := Activate(host, digest, binary, knownGood, log, checksHealth);
    if ok {
      progress := Complete;
    } else if restored && Apart(binary, companions) {
      ApartIsPutBack(digest, old(host.files), host.files, current, binary, companions);
    }
  }

  lemma ItWasInstalled(digest: Digest, before: Files, files: Files, current: Path, binary: Path, companions: seq<string>,
                       log: seq<Saved>, steps: seq<(Path, string)>)
    requires current in before
    requires var replaced := before[binary := before[current]][ChecksumPath(binary) := digest(before[current]) + "\n"];
      && Logs(log, replaced, steps) && files == Installed(replaced, steps) && Brought(steps, replaced, files, current, binary, companions)
    ensures WasInstalled(digest, before, files, current, binary, companions, log, steps)
  {
    hide Logs, Installed, Brought;
  }

  /** An activation that began with call `start` of the outside goes through. */
  predicate Activated(host: Host, start: nat, checksHealth: bool) {
    host.services(start) && (checksHealth ==> host.services(start + 1))
  }

  /** When it did not, and the service answers from then on: it runs what is installed again where there was a
      program before, and nothing where there was none. */
  ghost predicate ServiceLeft(host: Host, start: nat, hadProgram: bool, program: Option<string>)
    reads host`running
  {
    (forall n :: n >= start + 2 ==> host.services(n)) ==> host.running == if hadProgram then program else None
  }

  /** Register the service and wait for it; on a failure put the binary back, then the companions. */
  method Activate(host: Host, digest: Digest, binary: Path, knownGood: Option<string>, log: seq<Saved>, checksHealth: bool)
    returns (ok: bool, restored: bool)
    modifies host
    ensures ok ==> host.files == old(host.files) && host.running == Content(host.files, binary) && (checksHealth ==> host.healthy)
    ensures !ok && restored ==> host.files == Undo(Restored(digest, old(host.files), binary, knownGood), log)
    ensures host.DiskWorks() ==> restored
    ensures ok <==> Activated(host, old(host.calls), checksHealth)
    ensures !ok ==> ServiceLeft(host, old(host.calls), knownGood.Some?, Content(host.files, binary))
  {
    hide Undo, Restored, Content;
    ok := host.Start(binary);
    if ok && checksHealth { ok := host.AwaitHealth(); }
    restored := true;
    if ok { return; }
    var binaryBack := RestoreInstallBinary(host, digest, binary, knownGood);
    var companionsBack := RestoreInstalledFiles(host, log);
    restored := binaryBack && companionsBack;
    var settled;
    if knownGood.Some? { settled := host.Start(binary); } else { settled := host.Stop(); }
  }

  lemma InstalledWithRecord(digest: Digest, before: Files, binary: Path, program: string)
    ensures var files := before[binary := program][ChecksumPath(binary) := digest(program) + "\n"];
            Content(files, binary) == Some(program) && Matches(digest, files, binary)
  {
    RecordIsApart(binary);
  }

  lemma BackFromReplaced(digest: Digest, before: Files, binary: Path, program: string)
    ensures PutBack(digest, before, Restored(digest, before[binary := program], binary, Content(before, binary)), binary)
    ensures PutBack(digest, before, Restored(digest, before[binary := program][ChecksumPath(binary) := digest(program) + "\n"], binary,
                                             Content(before, binary)), binary)
  {
    RecordIsApart(binary);
  }

  lemma ApartCompanions(digest: Digest, before: Files, files: Files, current: Path, binary: Path, companions: seq<string>,
                        log: seq<Saved>, steps: seq<(Path, string)>)
    requires current in before && WasInstalled(digest, before, files, current, binary, companions, log, steps)
    ensures Apart(binary, companions) ==> Content(files, binary) == Content(before, current) && Matches(digest, files, binary)
  {
    hide Installed, Logs, Logged, Brought;
    if Apart(binary, companions) {
      var replaced := Replaced(digest, before, binary, before[current]);
      RecordIsApart(binary);
      LoggedIffBrought(digest, before, files, current, binary, companions, log, steps, binary.name);
      LoggedIffBrought(digest, before, files, current, binary, companions, log, steps, ChecksumPath(binary).name);
      UntouchedUnlessLogged(replaced, log, steps, binary);
      UntouchedUnlessLogged(replaced, log, steps, ChecksumPath(binary));
    }
  }

  /** An installation whose service cannot be registered: a companion named like the binary leaves the new program behind. */
  method CompanionNamedLikeTheBinary() returns (host: Host, ok: bool, restored: bool, ghost before: Files)
    ensures !ok && restored && Content(before, Path("app", "shadoc")) == Some("old")
    ensures Content(host.files, Path("app", "shadoc")) == Some("new")
  {
    var (current, binary) := (Path("release", "shadoc"), Path("app", "shadoc"));
    host := new Host(n => true, n => false, {}, map[current := "new", binary := "old"]);
    before := host.files;
    ghost var progress, start;
    ok, restored, progress, start := InstallCurrent(host, program => program, current, binary, ["shadoc"], false, false);
    assert "shadoc" in ["shadoc"];
  }

  /** And one named like its record leaves the old program with a record that matches no longer. */
  method CompanionNamedLikeTheRecord() returns (host: Host, ok: bool, restored: bool, ghost before: Files)
    ensures !ok && restored && Matches(program => program, before, Path("app", "shadoc"))
    ensures Content(host.files, Path("app", "shadoc")) == Content(before, Path("app", "shadoc"))
    ensures !Matches(program => program, host.files, Path("app", "shadoc"))
  {
    var (current, binary) := (Path("release", "shadoc"), Path("app", "shadoc"));
    var record := ChecksumPath(binary);
    RecordIsApart(binary);
    host := new Host(n => true, n => false, {}, map[current := "new", binary := "old", record := "old\n", ChecksumPath(current) := "x"]);
    before := host.files;
    OldMatches(before, binary);
    ghost var progress, start;
    ok, restored, progress, start := InstallCurrent(host, program => program, current, binary, [record.name], false, false);
    assert record.name in [record.name] && record.name == ChecksumPath(current).name;
    NewDiffers(before, host.files, current, binary, [record.name]);
  }

  lemma OldMatches(files: Files, binary: Path)
    requires Content(files, binary) == Some("old") && Content(files, ChecksumPath(binary)) == Some("old\n")
    ensures Matches(program => program, files, binary)
  {
    assert "old" + "\n" == "old\n";
  }

  /** The record brought by such a companion is the new program's. */
  lemma NewDiffers(before: Files, after: Files, current: Path, binary: Path, companions: seq<string>)
    requires Content(before, current) == Some("new") && Content(before, binary) == Some("old")
    requires companions == [ChecksumPath(binary).name] && Path(current.dir, ChecksumPath(binary).name) in before
    requires current in before && LateUndo(program => program, before, after, current, binary, companions)
    ensures Content(after, binary) == Some("old") && !Matches(program => program, after, binary)
  {
    assert companions[0] == ChecksumPath(binary).name;
    assert |ChecksumPath(binary).name| == |binary.name| + 7;
    assert "old" != "new";
  }
}

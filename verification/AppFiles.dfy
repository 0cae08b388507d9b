/** The machine an application is installed on, and the undo log of installed files. */
module AppFiles {
  import opened Wrappers

  datatype Path = Path(dir: string, name: string)

  type Files = map<Path, string>

  function Content(files: Files, p: Path): Option<string> {
    if p in files then Some(files[p]) else None
  }

  function WithContent(files: Files, p: Path, content: Option<string>): Files {
    match content
    case Some(c) => files[p := c]
    case None => files - {p}
  }

  // What a file held before it was installed over.
  datatype Saved = Saved(path: Path, content: Option<string>)

  /** Putting the saved contents back, the latest first. */
  function Undo(files: Files, log: seq<Saved>): Files
    decreases |log|
  {
    if log == [] then files
    else
      var last := log[|log| - 1];
      Undo(WithContent(files, last.path, last.content), log[..|log| - 1])
  }

  /** The files after installing a sequence of contents. */
  function Installed(files: Files, steps: seq<(Path, string)>): Files {
    if steps == [] then files else Installed(files, steps[..|steps| - 1])[steps[|steps| - 1].0 := steps[|steps| - 1].1]
  }

  /** `log` saved, for each step, what that step wrote over. */
  ghost predicate Logs(log: seq<Saved>, files: Files, steps: seq<(Path, string)>) {
    && |log| == |steps|
    && forall i :: 0 <= i < |log| ==> log[i] == Saved(steps[i].0, Content(Installed(files, steps[..i]), steps[i].0))
  }

  lemma LogsMore(log: seq<Saved>, files: Files, steps: seq<(Path, string)>, p: Path, content: string)
    requires Logs(log, files, steps)
    ensures Logs(log + [Saved(p, Content(Installed(files, steps), p))], files, steps + [(p, content)])
    ensures Installed(files, steps + [(p, content)]) == Installed(files, steps)[p := content]
  {
    var (more, longer) := (log + [Saved(p, Content(Installed(files, steps), p))], steps + [(p, content)]);
    assert longer[..|steps|] == steps;
    forall i | 0 <= i < |more|
      ensures more[i] == Saved(longer[i].0, Content(Installed(files, longer[..i]), longer[i].0))
    {
      if i < |log| {
        assert longer[..i] == steps[..i];
      }
    }
  }

  ghost predicate Logged(log: seq<Saved>, p: Path) {
    exists i :: 0 <= i < |log| && log[i].path == p
  }

  /**
   * Undoing from any state: a logged file gets back what it held before the first step, however often it was
   * written and whatever happened since, and no other file changes.
   */
  lemma {:induction false} UndoRestores(now: Files, log: seq<Saved>, files: Files, steps: seq<(Path, string)>, p: Path)
    requires Logs(log, files, steps)
    ensures Content(Undo(now, log), p) == if Logged(log, p) then Content(files, p) else Content(now, p)
    decreases |log|
  {
    hide Logs, Logged, Installed;
    if log == [] {
      NothingLogged(p);
    } else {
      var n := |log| - 1;
      var last := log[n];
      LogsFewer(log, files, steps);
      var next := WithContent(now, last.path, last.content);
      UndoRestores(next, log[..n], files, steps[..n], p);
      if last.path == p && !Logged(log[..n], p) {
        UntouchedUnlessLogged(files, log[..n], steps[..n], p);
      }
    }
  }

  lemma NothingLogged(p: Path)
    ensures !Logged([], p)
  {}

  lemma UntouchedUnlessLogged(files: Files, log: seq<Saved>, steps: seq<(Path, string)>, p: Path)
    requires Logs(log, files, steps) && !Logged(log, p)
    ensures Content(Installed(files, steps), p) == Content(files, p)
  {
    hide Content, Installed;
    forall i | 0 <= i < |steps| ensures steps[i].0 != p {
      assert log[i].path == steps[i].0;
    }
    UntouchedBySteps(files, steps, p);
  }

  lemma LogsFewer(log: seq<Saved>, files: Files, steps: seq<(Path, string)>)
    requires Logs(log, files, steps) && log != []
    ensures |steps| == |log|
    ensures Logs(log[..|log| - 1], files, steps[..|log| - 1])
    ensures forall p :: Logged(log, p) <==> Logged(log[..|log| - 1], p) || log[|log| - 1].path == p
    ensures log[|log| - 1] == Saved(steps[|log| - 1].0, Content(Installed(files, steps[..|log| - 1]), steps[|log| - 1].0))
  {
    hide Content, Installed;
    var n := |log| - 1;
    forall i | 0 <= i < n
      ensures log[..n][i] == Saved(steps[..n][i].0, Content(Installed(files, steps[..n][..i]), steps[..n][i].0))
    {
      assert steps[..n][..i] == steps[..i];
    }
    forall p
      ensures Logged(log, p) <==> Logged(log[..n], p) || log[n].path == p
    {
      if i :| 0 <= i < n && log[i].path == p {
        assert log[..n][i].path == p;
      }
      assert forall i :: 0 <= i < n ==> log[..n][i] == log[i];
    }
  }

  lemma {:induction false} UntouchedBySteps(files: Files, steps: seq<(Path, string)>, p: Path)
    requires forall i :: 0 <= i < |steps| ==> steps[i].0 != p
    ensures Content(Installed(files, steps), p) == Content(files, p)
  {
    if steps != [] {
      UntouchedBySteps(files, steps[..|steps| - 1], p);
    }
  }

  lemma ReadBack(files: Files, p: Path, content: string)
    ensures Content(files[p := content], p) == Some(content)
  {}

  lemma ApartContent(files: Files, p: Path, content: string, other: Path)
    ensures other != p ==> Content(files[p := content], other) == Content(files, other)
  {}

  lemma FoundIsContent(files: Files, p: Path, content: string)
    ensures Content(files, p) == Some(content) <==> p in files && files[p] == content
  {}

  // ----- The machine

  datatype Answer = Missing | Failed | Found(content: string)

  class Host {
    const answers: nat -> bool     // whether the n-th outside call goes through when it is about a file
    const services: nat -> bool    // and when it is about the service
    const irregular: set<Path>     // what is there but is no regular file
    var calls: nat
    var files: Files
    var running: Option<string>    // the program the service was last started with
    var healthy: bool              // whether that has passed a health check

    constructor (answers: nat -> bool, services: nat -> bool, irregular: set<Path>, files: Files)
      ensures this.answers == answers && this.services == services && this.irregular == irregular
      ensures this.files == files && calls == 0
    {
      this.answers, this.services, this.irregular, this.files, calls := answers, services, irregular, files, 0;
    }

    /** Every call about a file goes through. */
    ghost predicate DiskWorks() {
      (forall n :: answers(n)) && irregular == {}
    }

    method Read(p: Path) returns (r: Answer)
      modifies this`calls
      ensures calls == old(calls) + 1
      ensures r.Found? ==> Content(files, p) == Some(r.content)
      ensures r.Missing? ==> Content(files, p) == None
      ensures r.Failed? <==> !answers(old(calls)) || p in irregular
    {
      var ok := answers(calls);
      calls := calls + 1;
      if !ok || p in irregular { return Failed; }
      if p !in files { return Missing; }
      r := Found(files[p]);
    }

    /** A file is replaced as a whole or not at all. */
    method Write(p: Path, content: string) returns (ok: bool)
      modifies this`calls, this`files
      ensures calls == old(calls) + 1
      ensures files == if ok then old(files)[p := content] else old(files)
      ensures ok <==> answers(old(calls)) && p !in irregular
    {
      ok := answers(calls) && p !in irregular;
      calls := calls + 1;
      if ok { files := files[p := content]; }
    }

    /** Removing what is not there is no error. */
    method Remove(p: Path) returns (ok: bool)
      modifies this`calls, this`files
      ensures calls == old(calls) + 1
      ensures files == if ok then old(files) - {p} else old(files)
      ensures ok <==> answers(old(calls))
    {
      ok := answers(calls);
      calls := calls + 1;
      if ok { files := files - {p}; }
    }

    /** Start the service with the program installed at `binary`. */
    method Start(binary: Path) returns (ok: bool)
      modifies this`calls, this`running, this`healthy
      ensures calls == old(calls) + 1
      ensures ok <==> services(old(calls))
      ensures ok ==> running == Content(files, binary) && !healthy
      ensures !ok ==> running == old(running) && healthy == old(healthy)
    {
      ok := services(calls);
      calls := calls + 1;
      if ok { running, healthy := Content(files, binary), false; }
    }

    method Stop() returns (ok: bool)
      modifies this`calls, this`running, this`healthy
      ensures calls == old(calls) + 1
      ensures ok <==> services(old(calls))
      ensures (running, healthy) == if ok then (None, false) else (old(running), old(healthy))
    {
      ok := services(calls);
      calls := calls + 1;
      if ok { running, healthy := None, false; }
    }

    method AwaitHealth() returns (ok: bool)
      modifies this`calls, this`healthy
      ensures calls == old(calls) + 1
      ensures ok <==> services(old(calls))
      ensures healthy <==> old(healthy) || ok
    {
      ok := services(calls);
      calls := calls + 1;
      healthy := healthy || ok;
    }
  }
}

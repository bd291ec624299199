/**
 * Dispatch of a command line (`runCommand` in src/Shell/service.ts): the line
 * is tokenized, `argv[0]` is looked up in the registry, and the handler's
 * result or failure becomes the output and the exit status of one history
 * entry.
 *
 * `Execute` is the specification: what a line's argument vector yields on a
 * tree and a working directory.  `RunCommand` is the source's procedure over
 * the filesystem object and the `clearScreen` callback, proved to do what
 * `Execute` says.  The time `date` prints and the regular-expression
 * constructor `grep` uses come in as the `Env` parameter.
 */
module Shell {
  import opened Wrappers
  import opened Strings
  import opened FileSystem
  import Registry
  import opened Commands
  import Utils

  /** The `clearScreen` callback handed to every handler; it counts its calls. */
  class Screen {
    var clears: nat

    constructor ()
      ensures clears == 0
    {
      clears := 0;
    }

    method ClearScreen()
      modifies this
      ensures clears == old(clears) + 1
    {
      clears := clears + 1;
    }
  }

  /** What lies outside the core: the current time as `toLocaleString` writes it, and `new RegExp`. */
  datatype Env = Env(now: string, compile: (Option<string>, bool) -> Regex)

  /** What one handler call does: its outcome, the working directory after it, and how often it cleared the screen. */
  datatype Effect = Effect(outcome: Outcome, cwd: string, clears: nat)

  /** What the handler of each built-in returns or throws, run on `argv` against the tree and the working directory. */
  function Run(h: Registry.Handler, root: Node, cwd: string, argv: seq<string>, env: Env): (r: Outcome)
    ensures r.Threw? ==> h.GrepCmd?
  {
    match h
    case HelpCmd => Returned(Help(argv))
    case ClearCmd => Returned("")
    case EchoCmd => Returned(Echo(argv))
    case DateCmd => Returned(env.now)
    case PwdCmd => Returned(Pwd(cwd))
    case LsCmd => Returned(Ls(root, cwd, argv))
    case CdCmd => Returned(CdResult(root, cwd, argv).0)
    case CatCmd => Returned(Cat(root, cwd, argv))
    case GrepCmd => Grep(root, cwd, argv, env.compile)
    case ManCmd => Returned(Man(argv))
  }

  /** The working directory after a handler: only `cd` sets `fs.cwd`. */
  function NextCwd(h: Registry.Handler, root: Node, cwd: string, argv: seq<string>): string {
    if h.CdCmd? then CdResult(root, cwd, argv).1 else cwd
  }

  /** One handler call: its outcome, the working directory after it, and its calls of `clearScreen` (one, by `clear`). */
  function Handle(h: Registry.Handler, root: Node, cwd: string, argv: seq<string>, env: Env): Effect {
    Effect(Run(h, root, cwd, argv, env), NextCwd(h, root, cwd, argv), if h.ClearCmd? then 1 else 0)
  }

  /** `e?.message || String(e)`: the message, or the error's name when the message is empty. */
  function ErrorText(e: Exception): (r: string)
    ensures e.message != "" ==> r == e.message
    ensures e.message == "" ==> r == e.name
  {
    if e.message != "" then e.message else e.name
  }

  /** The output and exit status of one dispatch, with the state it leaves. */
  datatype Execution = Execution(output: string, exit: int, cwd: string, clears: nat)

  /** The dispatch of a non-empty argument vector. */
  function Dispatch(root: Node, cwd: string, argv: seq<string>, env: Env): Execution
    requires argv != []
  {
    match Registry.ByName(argv[0])
    case None => Execution(argv[0] + ": command not found", 1, cwd, 0)
    case Some(cmd) =>
      var e := Handle(cmd.handler, root, cwd, argv, env);
      match e.outcome
      case Returned(v) => Execution(v, 0, e.cwd, e.clears)
      case Threw(x) => Execution("Error: " + ErrorText(x), 1, e.cwd, e.clears)
  }

  /** What a line does: nothing for a blank line, else the dispatch of its tokens. */
  function Execute(root: Node, cwd: string, line: string, env: Env): Option<Execution> {
    var argv := Utils.Tokens(line);
    if argv == [] then None else Some(Dispatch(root, cwd, argv, env))
  }

  /** One entry of the history: the line as typed, its output and its exit status. */
  datatype HistoryEntry = HistoryEntry(cmd: string, out: string, exit: int)

  /** A handler run on the filesystem object and the screen; only `cd` and `clear` touch them. */
  method Invoke(h: Registry.Handler, fs: VirtualFS, screen: Screen, argv: seq<string>, env: Env) returns (outcome: Outcome)
    modifies fs, screen
    ensures var e := Handle(h, fs.root, old(fs.cwd), argv, env);
      outcome == e.outcome && fs.cwd == e.cwd && screen.clears == old(screen.clears) + e.clears
    ensures old(fs.Valid()) ==> fs.Valid()
  {
    match h
    case CdCmd =>
      var out := Cd(fs, argv);
      outcome := Returned(out);
    case ClearCmd =>
      screen.ClearScreen();
      outcome := Returned("");
    case _ =>
      var e := Handle(h, fs.root, fs.cwd, argv, env);
      outcome := e.outcome;
  }

  /** `runCommand`: tokenize, look up, run, and give the entry to record, if any. */
  method RunCommand(line: string, fs: VirtualFS, screen: Screen, env: Env) returns (entry: Option<HistoryEntry>)
    modifies fs, screen
    ensures var x := Execute(fs.root, old(fs.cwd), line, env);
      entry.None? == x.None?
      && (x.Some? ==> entry.value == HistoryEntry(line, x.value.output, x.value.exit)
                      && fs.cwd == x.value.cwd && screen.clears == old(screen.clears) + x.value.clears)
      && (x.None? ==> fs.cwd == old(fs.cwd) && screen.clears == old(screen.clears))
    ensures old(fs.Valid()) ==> fs.Valid()
  {
    var argv := Utils.Tokenize(line);
    if |argv| == 0 {
      return None;
    }
    var name := argv[0];
    var cmd := Registry.ByName(name);
    var out := "";
    var exit := 0;
    if cmd.None? {
      out := name + ": command not found";
      exit := 1;
    } else {
      var outcome := Invoke(cmd.value.handler, fs, screen, argv, env);
      match outcome
      case Returned(v) =>
        out := v;
      case Threw(e) =>
        out := "Error: " + ErrorText(e);
        exit := 1;
    }
    return Some(HistoryEntry(line, out, exit));
  }

  // ---------------------------------------------------------------------------
  // Properties of dispatch

  /**
   * The exit status is 1 exactly for an unknown name or a thrown error, and 0
   * otherwise, errors that a handler reports in its output included.
   */
  lemma ExitIff(root: Node, cwd: string, argv: seq<string>, env: Env)
    requires argv != []
    ensures var x := Dispatch(root, cwd, argv, env);
      (x.exit == 0 || x.exit == 1)
      && (x.exit == 1 <==>
          Registry.ByName(argv[0]).None?
          || Handle(Registry.ByName(argv[0]).value.handler, root, cwd, argv, env).outcome.Threw?)
  {
  }

  /** An unknown name: `<name>: command not found`, exit 1, nothing else changes. */
  lemma UnknownCommand(root: Node, cwd: string, argv: seq<string>, env: Env)
    requires argv != [] && argv[0] !in Registry.Names()
    ensures Dispatch(root, cwd, argv, env) == Execution(argv[0] + ": command not found", 1, cwd, 0)
  {
    Registry.ByNameIff(argv[0]);
  }

  /** A handler that returns gives its text as output with exit 0; one that throws gives `Error: <message>` with exit 1. */
  lemma KnownCommand(root: Node, cwd: string, argv: seq<string>, env: Env)
    requires argv != [] && argv[0] in Registry.Names()
    ensures var e := Handle(Registry.ByName(argv[0]).value.handler, root, cwd, argv, env);
      var x := Dispatch(root, cwd, argv, env);
      x.cwd == e.cwd && x.clears == e.clears
      && (e.outcome.Returned? ==> x.output == e.outcome.value && x.exit == 0)
      && (e.outcome.Threw? ==> x.output == "Error: " + ErrorText(e.outcome.error) && x.exit == 1)
  {
    Registry.ByNameIff(argv[0]);
  }

  /** Only `cd` moves the working directory, only `clear` clears the screen, only `grep` can end in exit 1 once found. */
  lemma DispatchEffects(root: Node, cwd: string, argv: seq<string>, env: Env)
    requires argv != []
    ensures var x := Dispatch(root, cwd, argv, env);
      (x.cwd != cwd ==> argv[0] == "cd")
      && x.clears == (if argv[0] == "clear" then 1 else 0)
      && (x.exit == 1 && argv[0] in Registry.Names() ==> argv[0] == "grep")
  {
    Registry.ByNameIff(argv[0]);
    Registry.NamesInOrder();
    if Registry.ByName(argv[0]).Some? {
      Registry.HandlerOf(argv[0]);
    }
  }

  /** A canonical path naming a directory of the tree. */
  predicate DirAt(root: Node, p: string) {
    Canonical(p) && Lookup(root, Segments(p)).Some? && Lookup(root, Segments(p)).value.Dir?
  }

  /** The working directory after a dispatch: `cd`'s target when the name is `cd`, else the same. */
  lemma DispatchCwd(root: Node, cwd: string, argv: seq<string>, env: Env)
    requires argv != []
    ensures Dispatch(root, cwd, argv, env).cwd ==
      if argv[0] == "cd" then CdResult(root, cwd, argv).1 else cwd
  {
    Registry.NamesInOrder();
    Registry.ByNameIff(argv[0]);
    if Registry.ByName(argv[0]).Some? {
      Registry.HandlerOf(argv[0]);
    }
  }

  /** A dispatch keeps the working directory a canonical path to a directory. */
  lemma DispatchKeepsDir(root: Node, cwd: string, argv: seq<string>, env: Env)
    requires argv != [] && DirAt(root, cwd)
    ensures DirAt(root, Dispatch(root, cwd, argv, env).cwd)
  {
    DispatchCwd(root, cwd, argv, env);
    if argv[0] == "cd" {
      CdLandsOnDir(root, cwd, argv);
    }
  }

  // ---------------------------------------------------------------------------
  // Sessions on the tree of makeFS

  /** `bogus`: not a command. */
  lemma BogusExample(line: string, env: Env)
    requires line == "bogus"
    ensures Execute(InitialTree, HomeDir, line, env) == Some(Execution(line + ": command not found", 1, HomeDir, 0))
  {
    Utils.TokensOneName(line);
    Registry.NamesInOrder();
    ExecuteLine(InitialTree, HomeDir, line, [line], env);
    UnknownCommand(InitialTree, HomeDir, [line], env);
  }

  /** `cat` of a path that names nothing prints the message and still exits 0. */
  lemma CatMissingExits0(root: Node, cwd: string, p: string, env: Env)
    requires Locate(root, cwd, p) == None
    ensures Dispatch(root, cwd, ["cat", p], env) == Execution("cat: " + p + ": No such file", 0, cwd, 0)
  {
    DispatchCat(root, cwd, ["cat", p], env);
    CatIff(root, cwd, ["cat", p]);
  }

  /** `cat missing.txt` in `/home/dev`: the handler reports the missing file itself, so the exit status stays 0. */
  lemma CatMissingExample(line: string, p: string, env: Env)
    requires p == "missing.txt" && line == "cat " + p
    ensures Execute(InitialTree, HomeDir, line, env)
      == Some(Execution("cat: " + p + ": No such file", 0, HomeDir, 0))
  {
    LineTokens("cat", p, line);
    ExecuteLine(InitialTree, HomeDir, line, ["cat", p], env);
    MissingFile(p);
    CatMissingExits0(InitialTree, HomeDir, p, env);
  }

  /** `/home/dev` has no `missing.txt`. */
  lemma MissingFile(p: string)
    requires p == "missing.txt"
    ensures Locate(InitialTree, HomeDir, p) == None
  {
    var rel := [p];
    assert Join(rel, "/") == p;
    HomeLookup(rel);
    var full := Resolve(HomeDir, p);
    assert Segments(full) == HomeStack + rel;
    assert Child(HomeEntries, p).None? by {
      assert forall k :: 0 <= k < |HomeEntries| ==> HomeEntries[k].name[0] != p[0];
    }
    assert Lookup(Dir(HomeEntries), rel) == None by {
      assert rel[1..] == [];
    }
  }

  /** A relative path of plain names from `/home/dev`: it resolves below it, and the walk continues in its children. */
  lemma HomeLookup(rel: seq<string>)
    requires |rel| >= 1 && Clean(rel)
    ensures Resolve(HomeDir, Join(rel, "/")) == Render(HomeStack + rel)
    ensures Segments(Render(HomeStack + rel)) == HomeStack + rel
    ensures Lookup(InitialTree, HomeStack + rel) == Lookup(Dir(HomeEntries), rel)
  {
    RelativeNames(rel);
    HomeDirRender();
    ResolveFrom(HomeStack, Join(rel, "/"));
    WalkPushes(HomeStack, rel);
    HomeStackClean(rel);
    LookupHome(rel);
  }

  lemma HomeStackClean(rel: seq<string>)
    requires Clean(rel)
    ensures Segments(Render(HomeStack + rel)) == HomeStack + rel
  {
    HomeDirRender();
    assert Clean(HomeStack + rel);
    SegmentsRender(HomeStack + rel);
  }

  /** Plain names joined by `/` form a relative path whose segments are those names. */
  lemma RelativeNames(rel: seq<string>)
    requires |rel| >= 1 && Clean(rel)
    ensures Join(rel, "/") != "" && !StartsWith(Join(rel, "/"), "/")
    ensures Segments(Join(rel, "/")) == rel
  {
    var path := Join(rel, "/");
    SplitJoin(rel, '/');
    NonEmptyKeeps(rel);
    JoinHead(rel, "/");
    assert path[0] == rel[0][0];
    Relative(path);
  }

  /** `cd projects/web-terminal` from `/home/dev` moves there silently, and `pwd` then prints the new directory. */
  lemma CdThenPwdExample(line: string, p: string, env: Env)
    requires p == "projects/web-terminal" && line == "cd " + p
    ensures Execute(InitialTree, HomeDir, line, env) == Some(Execution("", 0, HomeDir + "/" + p, 0))
    ensures Execute(InitialTree, HomeDir + "/" + p, "pwd", env)
      == Some(Execution(HomeDir + "/" + p, 0, HomeDir + "/" + p, 0))
  {
    CdProjectLine(line, p, env);
    CdProject(p, env);
    PwdExample(HomeDir + "/" + p, env);
  }

  lemma CdProjectLine(line: string, p: string, env: Env)
    requires p == "projects/web-terminal" && line == "cd " + p
    ensures Execute(InitialTree, HomeDir, line, env) == Some(Dispatch(InitialTree, HomeDir, ["cd", p], env))
  {
    ProjectName(p);
    LineTokens("cd", p, line);
    ExecuteLine(InitialTree, HomeDir, line, ["cd", p], env);
  }

  lemma ProjectName(p: string)
    requires p == "projects/web-terminal"
    ensures p != [] && forall c :: c in p ==> Utils.NameChar(c)
  {
  }

  lemma CdProject(p: string, env: Env)
    requires p == "projects/web-terminal"
    ensures Dispatch(InitialTree, HomeDir, ["cd", p], env) == Execution("", 0, HomeDir + "/" + p, 0)
  {
    DispatchCd(InitialTree, HomeDir, ["cd", p], env);
    ProjectFound(p);
  }

  /** `pwd` prints the working directory. */
  lemma PwdExample(cwd: string, env: Env)
    ensures Execute(InitialTree, cwd, "pwd", env) == Some(Execution(cwd, 0, cwd, 0))
  {
    Utils.TokensOneName("pwd");
    ExecuteLine(InitialTree, cwd, "pwd", ["pwd"], env);
    DispatchPwd(InitialTree, cwd, ["pwd"], env);
  }

  /** `projects/web-terminal` from `/home/dev` is the empty directory below it. */
  lemma ProjectFound(p: string)
    requires p == "projects/web-terminal"
    ensures Locate(InitialTree, HomeDir, p) == Some((Dir([]), HomeDir + "/" + p))
  {
    var rel := ["projects", "web-terminal"];
    JoinTwo(rel[0], rel[1], p);
    HomeLocate(rel, p);
    ProjectsLookup(rel);
  }

  /** A relative path of plain names from `/home/dev` is found by walking the children of `/home/dev`. */
  lemma HomeLocate(rel: seq<string>, p: string)
    requires |rel| >= 1 && Clean(rel) && Join(rel, "/") == p
    ensures Locate(InitialTree, HomeDir, p) ==
      match Lookup(Dir(HomeEntries), rel)
      case None => None
      case Some(n) => Some((n, HomeDir + "/" + p))
  {
    HomeLookup(rel);
    HomeDirRender();
    RenderBelow(HomeStack, rel, p);
  }

  /** The walk below `/home/dev` through `projects` to `web-terminal`. */
  lemma ProjectsLookup(rel: seq<string>)
    requires rel == ["projects", "web-terminal"]
    ensures Lookup(Dir(HomeEntries), rel) == Some(Dir([]))
  {
    HomeChildren();
    var below := Dir([Entry("web-terminal", Dir([]))]);
    assert rel[1..] == ["web-terminal"];
    assert Child(below.children, "web-terminal") == Some(Dir([]));
    assert Lookup(below, ["web-terminal"]) == Some(Dir([])) by {
      assert ["web-terminal"][1..] == [];
    }
  }

  /** Two names joined by a slash. */
  lemma JoinTwo(a: string, b: string, p: string)
    requires p == a + "/" + b
    ensures Join([a, b], "/") == p
  {
    JoinCons(a, [b], "/");
  }

  /** A line whose tokens are `argv`. */
  lemma ExecuteLine(root: Node, cwd: string, line: string, argv: seq<string>, env: Env)
    requires argv != [] && Utils.Tokens(line) == argv
    ensures Execute(root, cwd, line, env) == Some(Dispatch(root, cwd, argv, env))
  {
  }

  /** Two names separated by one space. */
  lemma LineTokens(a: string, b: string, line: string)
    requires a != [] && forall c :: c in a ==> Utils.NameChar(c)
    requires b != [] && forall c :: c in b ==> Utils.NameChar(c)
    requires line == a + " " + b
    ensures Utils.Tokens(line) == [a, b]
  {
    Utils.TokensTwoNames(a, b);
  }

  /** `cat` returns the handler's text with exit 0 and changes nothing. */
  lemma DispatchCat(root: Node, cwd: string, argv: seq<string>, env: Env)
    requires argv != [] && argv[0] == "cat"
    ensures Dispatch(root, cwd, argv, env) == Execution(Cat(root, cwd, argv), 0, cwd, 0)
  {
    Registry.NamesInOrder();
    Registry.ByNameIff(argv[0]);
    Registry.HandlerOf(argv[0]);
  }

  /** `ls` returns the handler's text with exit 0 and changes nothing. */
  lemma DispatchLs(root: Node, cwd: string, argv: seq<string>, env: Env)
    requires argv != [] && argv[0] == "ls"
    ensures Dispatch(root, cwd, argv, env) == Execution(Ls(root, cwd, argv), 0, cwd, 0)
  {
    Registry.NamesInOrder();
    Registry.ByNameIff(argv[0]);
    Registry.HandlerOf(argv[0]);
  }

  /** `pwd` prints the working directory with exit 0. */
  lemma DispatchPwd(root: Node, cwd: string, argv: seq<string>, env: Env)
    requires argv != [] && argv[0] == "pwd"
    ensures Dispatch(root, cwd, argv, env) == Execution(cwd, 0, cwd, 0)
  {
    Registry.NamesInOrder();
    Registry.ByNameIff(argv[0]);
    Registry.HandlerOf(argv[0]);
  }

  /** `cd` prints what `CdResult` prints, with exit 0, and moves where it says. */
  lemma DispatchCd(root: Node, cwd: string, argv: seq<string>, env: Env)
    requires argv != [] && argv[0] == "cd"
    ensures var r := CdResult(root, cwd, argv);
      Dispatch(root, cwd, argv, env) == Execution(r.0, 0, r.1, 0)
  {
    Registry.NamesInOrder();
    Registry.ByNameIff(argv[0]);
    Registry.HandlerOf(argv[0]);
  }

  /** `ls -l` in `/home/dev` lists `readme.txt` first, on its long line, size 50, the length of its text. */
  lemma LsLongExample(env: Env)
    ensures var x := Execute(InitialTree, HomeDir, "ls -l", env);
      x.Some? && x.value.exit == 0
      && StartsWith(x.value.output, "-rwxr-xr-x  dev  dev     50  readme.txt\n")
      && |ReadmeText| == 50
  {
    var argv := ["ls", "-l"];
    LineTokens("ls", "-l", "ls -l");
    ExecuteLine(InitialTree, HomeDir, "ls -l", argv, env);
    DispatchLs(InitialTree, HomeDir, argv, env);
    LsLongHome();
    LongListingStart();
  }

  /** `ls -l` with no path lists the working directory `/home/dev`. */
  lemma LsLongHome()
    ensures Ls(InitialTree, HomeDir, ["ls", "-l"]) == Join(LongLines(HomeEntries), "\n")
  {
    var argv := ["ls", "-l"];
    assert LsTarget(argv) == None;
    InitialTreeFacts();
    ResolveCanonicalPath(HomeDir, HomeDir);
    assert Locate(InitialTree, HomeDir, HomeDir) == Some((Dir(HomeEntries), HomeDir));
  }

  lemma LongListingStart()
    ensures StartsWith(Join(LongLines(HomeEntries), "\n"), "-rwxr-xr-x  dev  dev     50  readme.txt\n")
  {
    var lines := LongLines(HomeEntries);
    ReadmeLine();
    assert [lines[0]] + lines[1..] == lines;
    JoinCons(lines[0], lines[1..], "\n");
    PrefixOf(lines[0] + "\n", Join(lines[1..], "\n"));
  }

  /** The long line of `readme.txt`. */
  lemma ReadmeLine()
    ensures |ReadmeText| == 50
    ensures LongLine(HomeEntries[0]) == "-rwxr-xr-x  dev  dev     50  readme.txt"
  {
    ReadmeSize();
    assert HomeEntries[0] == Entry("readme.txt", File(ReadmeText));
    FileLine(HomeEntries[0], "readme.txt", "-rwxr-xr-x  dev  dev     50  readme.txt");
  }

  /** The long line of a 50-character file. */
  lemma FileLine(e: Entry, name: string, line: string)
    requires e.node.File? && |e.node.content| == 50 && e.name == name
    requires line == "-rwxr-xr-x  dev  dev     50  " + name
    ensures LongLine(e) == line
  {
    FiftyPadded(Size(e.node));
  }

  lemma FiftyPadded(n: nat)
    requires n == 50
    ensures PadStart(NatToString(n), 5) == "   50"
  {
    assert NatToString(5) == "5";
    assert NatToString(n) == NatToString(5) + [DigitChar(0)];
    assert NatToString(n) == "50";
    assert Repeat(' ', 3) == "   ";
  }

  lemma ReadmeSize()
    ensures |ReadmeText| == 50
  {
  }
}

/**
 * The built-in commands of src/Shell/commands.ts.
 *
 * Each handler reads `argv` (the whole token list, `argv[0]` being the
 * command name) and the filesystem.  All but `cd` only compute a string;
 * they are functions of the tree, the working directory and `argv`.  `cd` is
 * a method on the filesystem object, specified by `CdResult`.  `grep` builds
 * a regular expression, which this model takes as a parameter `compile`: it
 * gives the line test, or the exception the constructor throws.
 */
module Commands {
  import opened Wrappers
  import opened Strings
  import opened FileSystem
  import opened Registry
  import opened Helper
  import Utils

  /** A JavaScript error object: its `name` and its `message`. */
  datatype Exception = Exception(name: string, message: string)

  /** What `new RegExp(pattern, flags)` gives: a line test, or the exception it throws. */
  datatype Regex = Matcher(test: string -> bool) | Throws(error: Exception)

  /** A handler's outcome: the string it returns, or the exception it throws. */
  datatype Outcome = Returned(value: string) | Threw(error: Exception)

  /** `argv[i]`, which is `undefined` past the end. */
  function Arg(argv: seq<string>, i: nat): (r: Option<string>)
    ensures r.Some? <==> i < |argv|
    ensures r.Some? ==> r.value == argv[i]
  {
    if i < |argv| then Some(argv[i]) else None
  }

  /** A possibly `undefined` string as string concatenation writes it. */
  function Show(o: Option<string>): string {
    match o
    case Some(s) => s
    case None => "undefined"
  }

  /** `o || fallback`: both `undefined` and `""` are falsy. */
  function Or(o: Option<string>, fallback: string): (r: string)
    ensures o.Some? && o.value != "" ==> r == o.value
    ensures o.None? || o.value == "" ==> r == fallback
  {
    if o.Some? && o.value != "" then o.value else fallback
  }

  /** `xs.find(p)`. */
  function FirstWhere(xs: seq<string>, p: string -> bool): (r: Option<string>)
    ensures r.None? <==> forall k :: 0 <= k < |xs| ==> !p(xs[k])
    ensures r.Some? ==> r.value in xs && p(r.value)
    decreases |xs|
  {
    if xs == [] then None
    else if p(xs[0]) then Some(xs[0])
    else FirstWhere(xs[1..], p)
  }

  /** `find` returns the first element passing the test. */
  lemma {:induction false} FirstWhereAt(xs: seq<string>, p: string -> bool, i: nat)
    requires i < |xs| && p(xs[i])
    requires forall j :: 0 <= j < i ==> !p(xs[j])
    ensures FirstWhere(xs, p) == Some(xs[i])
    decreases i
  {
    if i > 0 {
      FirstWhereAt(xs[1..], p, i - 1);
    }
  }

  // ---------------------------------------------------------------------------
  // help and man

  /** One line of the command listing: the name padded to 12 columns, then the description. */
  function HelpLine(c: CommandDef): string {
    "  " + PadEnd(c.name, 12) + " " + c.description
  }

  function HelpLines(list: seq<CommandDef>): (r: seq<string>)
    ensures |r| == |list| && forall k :: 0 <= k < |list| ==> r[k] == HelpLine(list[k])
  {
    seq(|list|, k requires 0 <= k < |list| => HelpLine(list[k]))
  }

  const HelpTrailer: string := "\n\nType 'help <command>' for details."

  /** `help`: the page of a named command, or the listing of all commands. */
  function Help(argv: seq<string>): string {
    var name := Arg(argv, 1);
    if name.Some? && name.value != "" then
      match ByName(name.value)
      case Some(c) => FormatHelp(c)
      case None => "No such command: " + name.value
    else "Available commands:\n" + Join(HelpLines(All()), "\n") + HelpTrailer
  }

  /** `man`: the manual page of a named command; a missing name is written `undefined`. */
  function Man(argv: seq<string>): string {
    var name := Arg(argv, 1);
    match name
    case Some(n) => (match ByName(n) case Some(c) => FormatMan(c) case None => "No manual entry for " + n)
    case None => "No manual entry for " + Show(name)
  }

  // ---------------------------------------------------------------------------
  // echo and pwd

  /** The words `echo` prints: every element other than `echo` and `-n`, the command name included. */
  function EchoWords(argv: seq<string>): seq<string> {
    Filter(argv, a => a != "echo" && a != "-n")
  }

  /** `echo`: the words joined by single spaces, with a newline unless `-n` appears anywhere. */
  function Echo(argv: seq<string>): string {
    var out := Join(EchoWords(argv), " ");
    if "-n" in argv then out else out + "\n"
  }

  /** `pwd`. */
  function Pwd(cwd: string): string {
    cwd
  }

  // ---------------------------------------------------------------------------
  // ls

  /** The path `ls` is given: the first element other than `ls` and `-l`. */
  function LsTarget(argv: seq<string>): Option<string> {
    FirstWhere(argv, a => a != "ls" && a != "-l")
  }

  /** A file's size is its length; a directory's is 0. */
  function Size(n: Node): nat {
    match n
    case File(content) => |content|
    case Dir(_) => 0
  }

  /** The fixed columns of a long listing line before the size. */
  const LongMode: string := "rwxr-xr-x  dev  dev  "

  /** `ls -l` line of one child: type, mode and owners, size right-aligned in 5 columns, name. */
  function LongLine(e: Entry): string {
    (if e.node.Dir? then "d" else "-") + LongMode + PadStart(NatToString(Size(e.node)), 5) + "  " + e.name
  }

  function LongLines(children: seq<Entry>): (r: seq<string>)
    ensures |r| == |children| && forall k :: 0 <= k < |children| ==> r[k] == LongLine(children[k])
  {
    seq(|children|, k requires 0 <= k < |children| => LongLine(children[k]))
  }

  /** `ls [-l] [path]`. */
  function Ls(root: Node, cwd: string, argv: seq<string>): string {
    var long := "-l" in argv;
    var p := LsTarget(argv);
    match Locate(root, cwd, Or(p, cwd))
    case None => "ls: cannot access '" + Or(p, "") + "': No such file or directory"
    case Some((node, full)) =>
      match node
      case File(_) => Or(p, full)
      case Dir(children) =>
        if !long then Join(Keys(children), "  ") else Join(LongLines(children), "\n")
  }

  // ---------------------------------------------------------------------------
  // cd

  /** The path `cd` is given: `argv[1]`, or the home directory. */
  function CdTarget(argv: seq<string>): string {
    Or(Arg(argv, 1), HomeDir)
  }

  /** `cd`: its output and the new working directory. */
  function CdResult(root: Node, cwd: string, argv: seq<string>): (string, string) {
    var p := CdTarget(argv);
    match Locate(root, cwd, p)
    case Some((node, full)) => if node.Dir? then ("", full) else ("cd: no such directory: " + p, cwd)
    case None => ("cd: no such directory: " + p, cwd)
  }

  /** The handler of `cd`: the only one that changes the filesystem object. */
  method Cd(fs: VirtualFS, argv: seq<string>) returns (out: string)
    modifies fs
    ensures (out, fs.cwd) == CdResult(fs.root, old(fs.cwd), argv)
    ensures old(fs.Valid()) ==> fs.Valid()
  {
    var p := if |argv| > 1 && argv[1] != "" then argv[1] else HomeDir;
    var res := GetNode(fs, p);
    if res.None? || !res.value.0.Dir? {
      return "cd: no such directory: " + p;
    }
    CdLandsOnDir(fs.root, fs.cwd, argv);
    fs.cwd := res.value.1;
    return "";
  }

  // ---------------------------------------------------------------------------
  // cat and grep

  /** `cat <file>`; a missing name is written `undefined`. */
  function Cat(root: Node, cwd: string, argv: seq<string>): string {
    var file := Arg(argv, 1);
    match Locate(root, cwd, Or(file, ""))
    case Some((File(content), _)) => content
    case _ => "cat: " + Show(file) + ": No such file"
  }

  /** The arguments `grep` reads its pattern and file from: those not starting with `-`. */
  function GrepArgs(argv: seq<string>): seq<string> {
    Filter(argv, a => !StartsWith(a, "-"))
  }

  /** The lines of a text that pass a test, joined again by newlines. */
  function MatchingLines(content: string, test: string -> bool): string {
    Join(Filter(Split(content, '\n'), test), "\n")
  }

  /** `grep [-i] <pattern> <file>`; a missing file is written `undefined`. */
  function Grep(root: Node, cwd: string, argv: seq<string>, compile: (Option<string>, bool) -> Regex): Outcome {
    var ignore := "-i" in argv;
    var args := GrepArgs(argv);
    var pattern := Arg(args, 1);
    var file := Arg(args, 2);
    match Locate(root, cwd, Or(file, ""))
    case Some((File(content), _)) =>
      (match compile(pattern, ignore)
       case Matcher(test) => Returned(MatchingLines(content, test))
       case Throws(e) => Threw(e))
    case _ => Returned("grep: " + Show(file) + ": No such file")
  }

  // ---------------------------------------------------------------------------
  // Lemmas

  /** `cd` either keeps the working directory or moves it to a canonical path naming a directory. */
  lemma CdLandsOnDir(root: Node, cwd: string, argv: seq<string>)
    ensures var next := CdResult(root, cwd, argv).1;
      next == cwd || (Canonical(next) && Lookup(root, Segments(next)).Some? && Lookup(root, Segments(next)).value.Dir?)
  {
    var p := CdTarget(argv);
    if Locate(root, cwd, p).Some? {
      LocatedPath(root, cwd, p);
    }
  }

  /** What `getNode` finds is at a canonical path, and found again from there. */
  lemma LocatedPath(root: Node, cwd: string, p: string)
    requires Locate(root, cwd, p).Some?
    ensures Canonical(Locate(root, cwd, p).value.1)
    ensures Lookup(root, Segments(Locate(root, cwd, p).value.1)) == Some(Locate(root, cwd, p).value.0)
  {
    ResolveCanonical(cwd, p);
  }

  /** `cd` prints nothing exactly when it finds a directory, and then moves to its resolved path. */
  lemma CdSilentIff(root: Node, cwd: string, argv: seq<string>)
    ensures var loc := Locate(root, cwd, CdTarget(argv));
      CdResult(root, cwd, argv).0 == "" <==> loc.Some? && loc.value.0.Dir?
    ensures var loc := Locate(root, cwd, CdTarget(argv));
      loc.Some? && loc.value.0.Dir? ==> CdResult(root, cwd, argv).1 == Resolve(cwd, CdTarget(argv))
  {
    var o := "cd: no such directory: " + CdTarget(argv);
    assert o[0] == 'c';
  }

  /** After a `cd` that succeeds, `pwd` prints the resolved target. */
  lemma CdThenPwd(root: Node, cwd: string, argv: seq<string>)
    requires Locate(root, cwd, CdTarget(argv)).Some? && Locate(root, cwd, CdTarget(argv)).value.0.Dir?
    ensures CdResult(root, cwd, argv) == ("", Resolve(cwd, CdTarget(argv)))
    ensures Pwd(CdResult(root, cwd, argv).1) == Resolve(cwd, CdTarget(argv))
  {
    CdSilentIff(root, cwd, argv);
  }

  /** `cd` with no argument, or an empty one, goes home. */
  lemma CdHome(argv: seq<string>)
    requires |argv| <= 1 || argv[1] == ""
    ensures CdTarget(argv) == "/home/dev"
  {
  }

  /** `echo` prints no `echo` and no `-n`, and everything else in order; the newline goes exactly when `-n` is absent. */
  lemma EchoWordsFacts(argv: seq<string>)
    ensures forall w :: w in EchoWords(argv) <==> w in argv && w != "echo" && w != "-n"
    ensures Echo(argv) == Join(EchoWords(argv), " ") + (if "-n" in argv then "" else "\n")
  {
    FilterMembers(argv, a => a != "echo" && a != "-n");
  }

  /** Tokenizing what `echo` prints, with or without its trailing newline, gives back the printed words, when they are plain words. */
  lemma EchoRoundTrip(argv: seq<string>)
    requires forall k :: 0 <= k < |EchoWords(argv)| ==> Utils.PlainWord(EchoWords(argv)[k])
    ensures Utils.Tokens(Echo(argv)) == EchoWords(argv)
  {
    var tail := if "-n" in argv then "" else "\n";
    assert Echo(argv) == Join(EchoWords(argv), " ") + tail;
    Utils.TokensJoinPlainSpaced(EchoWords(argv), tail);
  }

  /** `cat` gives a file's text exactly when its argument resolves to a file, and `cat: <file>: No such file` otherwise. */
  lemma CatIff(root: Node, cwd: string, argv: seq<string>)
    ensures var loc := Locate(root, cwd, Or(Arg(argv, 1), ""));
      if loc.Some? && loc.value.0.File? then Cat(root, cwd, argv) == loc.value.0.content
      else Cat(root, cwd, argv) == "cat: " + Show(Arg(argv, 1)) + ": No such file"
  {
  }

  /** `cat` on a canonical absolute path prints the file the path names in the tree, wherever the working directory is. */
  lemma CatCanonical(root: Node, cwd: string, argv: seq<string>)
    requires |argv| >= 2 && Canonical(argv[1])
    ensures var n := Lookup(root, Segments(argv[1]));
      Cat(root, cwd, argv) == if n.Some? && n.value.File? then n.value.content else "cat: " + argv[1] + ": No such file"
  {
    assert StartsWith(argv[1], "/");
    ResolveCanonicalPath(cwd, argv[1]);
  }

  /** `cat` alone resolves to the working directory, a directory, so it prints `cat: undefined: No such file`. */
  lemma CatNoArgument(root: Node, cwd: string)
    requires Canonical(cwd) && Lookup(root, Segments(cwd)).Some? && Lookup(root, Segments(cwd)).value.Dir?
    ensures Cat(root, cwd, ["cat"]) == "cat: undefined: No such file"
  {
    LocateCwd(root, cwd);
    var file := Arg(["cat"], 1);
    assert file == None;
    assert Or(file, "") == "";
    var out := Cat(root, cwd, ["cat"]);
    assert out == "cat: " + Show(file) + ": No such file";
    CatUndefinedText(out);
  }

  lemma CatUndefinedText(out: string)
    requires out == "cat: " + Show(None) + ": No such file"
    ensures out == "cat: undefined: No such file"
  {
  }

  /** The empty path, which a missing argument also resolves as, finds the working directory. */
  lemma LocateCwd(root: Node, cwd: string)
    requires Canonical(cwd) && Lookup(root, Segments(cwd)).Some?
    ensures Locate(root, cwd, "") == Some((Lookup(root, Segments(cwd)).value, cwd))
  {
    assert StartsWith(cwd, "/") by {
      assert cwd == "/" + Join(Segments(cwd), "/");
    }
    ResolveEmpty(cwd);
  }

  /** `grep` keeps exactly the lines of the file that pass the test, in order, and prints them one per line. */
  lemma MatchingLinesFacts(content: string, test: string -> bool)
    ensures var kept := Filter(Split(content, '\n'), test);
      forall l :: l in kept <==> l in Split(content, '\n') && test(l)
    ensures var kept := Filter(Split(content, '\n'), test);
      kept != [] ==> Split(MatchingLines(content, test), '\n') == kept
  {
    var lines := Split(content, '\n');
    var kept := Filter(lines, test);
    FilterMembers(lines, test);
    if kept != [] {
      assert forall k :: 0 <= k < |kept| ==> kept[k] in lines;
      SplitJoin(kept, '\n');
    }
  }

  /** `grep` with a test every line passes prints the whole file. */
  lemma MatchingLinesAll(content: string, test: string -> bool)
    requires forall l :: l in Split(content, '\n') ==> test(l)
    ensures MatchingLines(content, test) == content
  {
    var lines := Split(content, '\n');
    assert forall k :: 0 <= k < |lines| ==> lines[k] in lines;
    FilterAll(lines, test);
    JoinSplit(content, '\n');
  }

  /** `grep` with no file, or one that is not a file, reports it; only a file reaches the pattern. */
  lemma GrepNoFile(root: Node, cwd: string, argv: seq<string>, compile: (Option<string>, bool) -> Regex)
    requires var loc := Locate(root, cwd, Or(Arg(GrepArgs(argv), 2), "")); loc.None? || !loc.value.0.File?
    ensures Grep(root, cwd, argv, compile) == Returned("grep: " + Show(Arg(GrepArgs(argv), 2)) + ": No such file")
  {
  }

  /** `grep` throws exactly what the pattern's constructor throws, and only for a file it found. */
  lemma GrepThrows(root: Node, cwd: string, argv: seq<string>, compile: (Option<string>, bool) -> Regex)
    ensures Grep(root, cwd, argv, compile).Threw? <==>
      (var loc := Locate(root, cwd, Or(Arg(GrepArgs(argv), 2), ""));
       loc.Some? && loc.value.0.File? && compile(Arg(GrepArgs(argv), 1), "-i" in argv).Throws?)
  {
  }

  /** The listing of `ls` names every child in insertion order; `ls` of a file prints the typed path. */
  lemma LsOutcomes(root: Node, cwd: string, argv: seq<string>)
    ensures var p := LsTarget(argv);
      var loc := Locate(root, cwd, Or(p, cwd));
      (loc.None? ==> Ls(root, cwd, argv) == "ls: cannot access '" + Or(p, "") + "': No such file or directory")
      && (loc.Some? && loc.value.0.File? ==> Ls(root, cwd, argv) == Or(p, loc.value.1))
      && (loc.Some? && loc.value.0.Dir? && "-l" !in argv ==> Ls(root, cwd, argv) == Join(Keys(loc.value.0.children), "  "))
      && (loc.Some? && loc.value.0.Dir? && "-l" in argv ==> Ls(root, cwd, argv) == Join(LongLines(loc.value.0.children), "\n"))
  {
  }

  /** `ls` reads the first argument other than `ls` and `-l`, wherever it stands. */
  lemma LsTargetFirst(argv: seq<string>, i: nat)
    requires i < |argv| && argv[i] != "ls" && argv[i] != "-l"
    requires forall j :: 0 <= j < i ==> argv[j] == "ls" || argv[j] == "-l"
    ensures LsTarget(argv) == Some(argv[i])
  {
    FirstWhereAt(argv, a => a != "ls" && a != "-l", i);
  }

  /** A long listing line: the type letter, the fixed mode and owners, the size in 5 columns, two spaces, the name at column 29. */
  lemma LongLineLayout(e: Entry)
    requires Size(e.node) < 100000
    ensures var line := LongLine(e);
      |line| == 29 + |e.name| && line[29..] == e.name
      && line[0] == (if e.node.Dir? then 'd' else '-')
      && line[1..22] == LongMode && line[27..29] == "  "
      && line[22..27] == PadStart(NatToString(Size(e.node)), 5)
  {
    var digits := NatToString(Size(e.node));
    assert Pow10(5) == 100000;
    NatToStringShort(Size(e.node), 5, 100000);
    var field := PadStart(digits, 5);
    var line := LongLine(e);
    var t := if e.node.Dir? then "d" else "-";
    assert line == t + LongMode + field + "  " + e.name;
    assert |LongMode| == 21;
  }

  /** The size column of a long listing line, trimmed, is the size's decimal digits, which read back as the size. */
  lemma LongLineSize(e: Entry)
    requires Size(e.node) < 100000
    ensures Trim(LongLine(e)[22..27]) == NatToString(Size(e.node))
    ensures DigitsValue(NatToString(Size(e.node))) == Size(e.node)
  {
    LongLineLayout(e);
    var digits := NatToString(Size(e.node));
    assert Pow10(5) == 100000;
    NatToStringShort(Size(e.node), 5, 100000);
    NatToStringValue(Size(e.node));
    FieldTrim(digits, PadStart(digits, 5));
  }

  /** Trimming a right-aligned digit field gives the digits back. */
  lemma FieldTrim(digits: string, field: string)
    requires |digits| >= 1 && forall k :: 0 <= k < |digits| ==> IsDigit(digits[k])
    requires |digits| <= 5 && field == PadStart(digits, 5)
    ensures Trim(field) == digits
  {
    var pad := 5 - |digits|;
    assert field[pad..] == digits;
    forall k | 0 <= k < pad
      ensures IsSpace(field[k])
    {
      assert field[k] == ' ';
    }
    assert field[pad] == digits[0];
    DigitNotSpace(digits[0]);
    TrimStartAt(field, pad);
    DigitNotSpace(digits[|digits| - 1]);
    assert TrimEnd(digits) == digits;
  }

  /** `trimStart` of blanks followed by a non-blank. */
  lemma {:induction false} TrimStartAt(s: string, n: nat)
    requires n < |s| && !IsSpace(s[n]) && forall k :: 0 <= k < n ==> IsSpace(s[k])
    ensures TrimStart(s) == s[n..]
    decreases n
  {
    if n > 0 {
      assert s[1..][n - 1] == s[n];
      TrimStartAt(s[1..], n - 1);
      assert s[1..][n - 1..] == s[n..];
    }
  }

  /** Without a command name, `help` prints the listing of all registered commands in order. */
  lemma HelpListing(argv: seq<string>)
    requires |argv| <= 1 || argv[1] == ""
    ensures Help(argv) == "Available commands:\n" + Join(HelpLines(All()), "\n") + HelpTrailer
  {
  }

  /** A listing of commands whose names and descriptions hold no newline is one line per command: cut at newlines it gives those lines. */
  lemma HelpLinesSplit(list: seq<CommandDef>)
    requires list != []
    requires forall k :: 0 <= k < |list| ==> OneLine(list[k])
    ensures Split(Join(HelpLines(list), "\n"), '\n') == HelpLines(list)
  {
    var lines := HelpLines(list);
    forall k | 0 <= k < |lines|
      ensures '\n' !in lines[k]
    {
      HelpLineOneLine(list[k]);
    }
    SplitJoin(lines, '\n');
  }

  /** Names and descriptions that fit on one line each. */
  predicate OneLine(c: CommandDef) {
    '\n' !in c.name && '\n' !in c.description
  }

  lemma HelpLineOneLine(c: CommandDef)
    requires OneLine(c)
    ensures '\n' !in HelpLine(c)
  {
    var pad := PadEnd(c.name, 12);
    forall i | 0 <= i < |pad|
      ensures pad[i] != '\n'
    {
      if i < |c.name| {
        assert pad[i] == pad[..|c.name|][i];
      }
    }
  }

  /** In a listing line the name starts at column 2 and, for names of at most 12 characters, the description at column 15. */
  lemma HelpLineColumns(c: CommandDef)
    requires |c.name| <= 12
    ensures var line := HelpLine(c); line[2..2 + |c.name|] == c.name && line[15..] == c.description
  {
    var pad := PadEnd(c.name, 12);
    var line := HelpLine(c);
    assert line == "  " + pad + " " + c.description;
    assert line[2..14] == pad;
    assert line[2..2 + |c.name|] == pad[..|c.name|];
  }

  /** `help X` for an unknown, non-empty name. */
  lemma UnknownHelp(n: string)
    requires ByName(n).None? && n != ""
    ensures Help(["help", n]) == "No such command: " + n
  {
    assert Arg(["help", n], 1) == Some(n);
  }

  /** `man X` for an unknown name. */
  lemma UnknownMan(n: string)
    requires ByName(n).None?
    ensures Man(["man", n]) == "No manual entry for " + n
  {
    assert Arg(["man", n], 1) == Some(n);
  }

  /** `help X` for a registered name gives its help page. */
  lemma KnownHelp(n: string)
    requires ByName(n).Some?
    ensures Help(["help", n]) == FormatHelp(ByName(n).value)
  {
    ByNameNonEmpty(n);
    assert Arg(["help", n], 1) == Some(n);
  }

  /** `man X` for a registered name gives its manual page. */
  lemma KnownMan(n: string)
    requires ByName(n).Some?
    ensures Man(["man", n]) == FormatMan(ByName(n).value)
  {
    assert Arg(["man", n], 1) == Some(n);
  }
}

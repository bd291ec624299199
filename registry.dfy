/**
 * The command registry of src/Shell/commands.ts (and its copy in
 * src/Shell/helper.ts): the command definitions in registration order and
 * the lookups `all`, `byName` and `names`.
 *
 * A definition's `handler` is a tag naming the built-in; the handlers
 * themselves are in the Commands module.  A missing `usage` is `None`;
 * missing `options` and `args` are the empty sequence, which is how every
 * reader of a definition treats them (`cmd.options || []`).
 */
module Registry {
  import opened Wrappers

  datatype CommandArg = CommandArg(name: string, optional: bool, variadic: bool)

  datatype CommandOption = CommandOption(flag: string, desc: string)

  /** The built-in a definition dispatches to. */
  datatype Handler = HelpCmd | ClearCmd | EchoCmd | DateCmd | PwdCmd | LsCmd | CdCmd | CatCmd | GrepCmd | ManCmd

  datatype CommandDef = CommandDef(
    name: string,
    description: string,
    usage: Option<string>,
    options: seq<CommandOption>,
    args: seq<CommandArg>,
    handler: Handler)

  /** `cmd.usage || fallback`: an empty usage counts as missing. */
  function UsageOr(cmd: CommandDef, fallback: string): (r: string)
    ensures cmd.usage.Some? && cmd.usage.value != "" ==> r == cmd.usage.value
    ensures cmd.usage.None? || cmd.usage.value == "" ==> r == fallback
  {
    match cmd.usage
    case Some(u) => if u != "" then u else fallback
    case None => fallback
  }

  const Help := CommandDef("help", "Show help for commands", Some("help [command]"), [],
    [CommandArg("command", true, false)], HelpCmd)
  const Clear := CommandDef("clear", "Clear the screen", Some("clear"), [], [], ClearCmd)
  const Echo := CommandDef("echo", "Print arguments", Some("echo [args...]"),
    [CommandOption("-n", "no trailing newline")], [CommandArg("text", true, true)], EchoCmd)
  const Date := CommandDef("date", "Print current date & time", Some("date"), [], [], DateCmd)
  const Pwd := CommandDef("pwd", "Print working directory", Some("pwd"), [], [], PwdCmd)
  const Ls := CommandDef("ls", "List directory contents", Some("ls [path]"),
    [CommandOption("-l", "long format")], [CommandArg("path", true, false)], LsCmd)
  const Cd := CommandDef("cd", "Change directory", Some("cd [path]"), [], [CommandArg("path", true, false)], CdCmd)
  const Cat := CommandDef("cat", "Concatenate and print files", Some("cat <file>"), [],
    [CommandArg("file", false, false)], CatCmd)
  const Grep := CommandDef("grep", "Search for PATTERN in files (demo)", Some("grep <pattern> <file>"),
    [CommandOption("-i", "ignore case")], [CommandArg("pattern", false, false), CommandArg("file", false, false)], GrepCmd)
  const Man := CommandDef("man", "Show detailed help (demo)", Some("man <command>"), [],
    [CommandArg("command", false, false)], ManCmd)

  /** `COMMANDS`, in registration order. */
  const Commands: seq<CommandDef> := [Help, Clear, Echo, Date, Pwd, Ls, Cd, Cat, Grep, Man]

  /** `REGISTRY.all()`. */
  function All(): seq<CommandDef> {
    Commands
  }

  /** `list.find(c => c.name === n)` over any list of definitions. */
  function Find(list: seq<CommandDef>, n: string): (r: Option<CommandDef>)
    ensures r.None? <==> forall k :: 0 <= k < |list| ==> list[k].name != n
    ensures r.Some? ==> r.value.name == n && r.value in list
    decreases |list|
  {
    if list == [] then None
    else if list[0].name == n then Some(list[0])
    else Find(list[1..], n)
  }

  /** `find` returns the first definition with the name. */
  lemma {:induction false} FindFirst(list: seq<CommandDef>, n: string, i: nat)
    requires i < |list| && list[i].name == n
    requires forall j :: 0 <= j < i ==> list[j].name != n
    ensures Find(list, n) == Some(list[i])
    decreases i
  {
    if i > 0 {
      FindFirst(list[1..], n, i - 1);
    }
  }

  /** `REGISTRY.byName(n)`: the first registered command called exactly `n`. */
  function ByName(n: string): Option<CommandDef> {
    Find(Commands, n)
  }

  /** `list.map(c => c.name)`. */
  function NamesOf(list: seq<CommandDef>): (r: seq<string>)
    ensures |r| == |list| && forall k :: 0 <= k < |list| ==> r[k] == list[k].name
  {
    seq(|list|, k requires 0 <= k < |list| => list[k].name)
  }

  /** `REGISTRY.names()`. */
  function Names(): seq<string> {
    NamesOf(Commands)
  }

  // ---------------------------------------------------------------------------
  // Lemmas

  /** The registered names, in order. */
  lemma NamesInOrder()
    ensures Names() == ["help", "clear", "echo", "date", "pwd", "ls", "cd", "cat", "grep", "man"]
  {
  }

  /** No two registered commands share a name. */
  lemma NamesUnique()
    ensures forall i, j :: 0 <= i < j < |Names()| ==> Names()[i] != Names()[j]
  {
    NamesInOrder();
  }

  /** `byName` finds a command exactly for the registered names, and finds the one with that name. */
  lemma ByNameIff(n: string)
    ensures ByName(n).Some? <==> n in Names()
    ensures ByName(n).Some? ==> ByName(n).value.name == n && ByName(n).value in All()
  {
  }

  /** Every registered name is non-empty: `byName` finds nothing for the empty name. */
  lemma ByNameNonEmpty(n: string)
    requires ByName(n).Some?
    ensures n != ""
  {
    assert forall k :: 0 <= k < |Commands| ==> |Commands[k].name| >= 2;
    var k :| 0 <= k < |Commands| && Commands[k] == ByName(n).value;
  }

  /** With distinct names, the command `byName` finds is the only one with that name. */
  lemma ByNameUnique(n: string, k: nat)
    requires k < |Commands| && Commands[k].name == n
    ensures ByName(n) == Some(Commands[k])
  {
    NamesUnique();
    assert forall j :: 0 <= j < k ==> Names()[j] != Names()[k];
    FindFirst(Commands, n, k);
  }

  /** Each registered name runs its own handler, and no other name runs it. */
  lemma HandlerOf(n: string)
    requires ByName(n).Some?
    ensures var h := ByName(n).value.handler;
      (h == HelpCmd <==> n == "help") && (h == ClearCmd <==> n == "clear")
      && (h == EchoCmd <==> n == "echo") && (h == DateCmd <==> n == "date")
      && (h == PwdCmd <==> n == "pwd") && (h == LsCmd <==> n == "ls")
      && (h == CdCmd <==> n == "cd") && (h == CatCmd <==> n == "cat")
      && (h == GrepCmd <==> n == "grep") && (h == ManCmd <==> n == "man")
  {
    ByNameIff(n);
    var k :| 0 <= k < |Commands| && Commands[k] == ByName(n).value;
    if k == 0 { assert Commands[k] == Help; }
    else if k == 1 { assert Commands[k] == Clear; }
    else if k == 2 { assert Commands[k] == Echo; }
    else if k == 3 { assert Commands[k] == Date; }
    else if k == 4 { assert Commands[k] == Pwd; }
    else if k == 5 { assert Commands[k] == Ls; }
    else if k == 6 { assert Commands[k] == Cd; }
    else if k == 7 { assert Commands[k] == Cat; }
    else if k == 8 { assert Commands[k] == Grep; }
    else { assert Commands[k] == Man; }
  }
}

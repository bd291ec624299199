/**
 * The help and manual text of src/Shell/helper.ts: the argument synopsis
 * (`fmtArgs`), the `help <command>` page (`formatHelp`) and the `man` page
 * (`formatMan`).
 */
module Helper {
  import opened Wrappers
  import opened Strings
  import opened Registry

  /** How one argument is written in a synopsis; a variadic argument is written as such even when optional. */
  function FmtArg(a: CommandArg): string {
    if a.variadic then a.name + "..."
    else if a.optional then "[" + a.name + "]"
    else "<" + a.name + ">"
  }

  /** The shape `FmtArg` gives an argument. */
  datatype ArgForm = Variadic(name: string) | OptionalArg(name: string) | Required(name: string) | NoArg

  /** What a reader of a synopsis word sees: the bracket form first, then a `...` suffix. */
  function ReadArg(w: string): ArgForm {
    if |w| >= 2 && w[0] == '[' && w[|w| - 1] == ']' then OptionalArg(w[1..|w| - 1])
    else if |w| >= 2 && w[0] == '<' && w[|w| - 1] == '>' then Required(w[1..|w| - 1])
    else if EndsWith(w, "...") then Variadic(w[..|w| - 3])
    else NoArg
  }

  /** The form an argument is meant to show: variadic wins over optional. */
  function Form(a: CommandArg): ArgForm {
    if a.variadic then Variadic(a.name) else if a.optional then OptionalArg(a.name) else Required(a.name)
  }

  /** The rendered arguments, in order. */
  function ArgWords(args: seq<CommandArg>): (r: seq<string>)
    ensures |r| == |args| && forall k :: 0 <= k < |args| ==> r[k] == FmtArg(args[k])
  {
    seq(|args|, k requires 0 <= k < |args| => FmtArg(args[k]))
  }

  /** `fmtArgs(cmd)`: the rendered arguments joined by single spaces. */
  function FmtArgs(cmd: CommandDef): string {
    Join(ArgWords(cmd.args), " ")
  }

  /** One line of an options block: the flag padded to 6 columns, then the description. */
  function OptionLine(o: CommandOption): (r: string)
    ensures |r| >= 9 && r[..2] == "  "
  {
    "  " + PadEnd(o.flag, 6) + " " + o.desc
  }

  /** The columns of an option line: a two-space indent, the flag, blanks up to column 9, the description. */
  lemma OptionLineColumns(o: CommandOption)
    ensures var r := OptionLine(o); var w := |o.flag|;
      r[..2] == "  " && r[2..2 + w] == o.flag
      && (w <= 6 ==> |r| == 9 + |o.desc| && (forall k :: 2 + w <= k < 9 ==> r[k] == ' ') && r[9..] == o.desc)
      && (w > 6 ==> |r| == 3 + w + |o.desc| && r[2 + w] == ' ' && r[3 + w..] == o.desc)
  {
    var pad := PadEnd(o.flag, 6);
    var r := OptionLine(o);
    var n := 2 + |pad|;
    assert r == "  " + pad + " " + o.desc;
    assert r[2..n] == pad;
    assert r[2..2 + |o.flag|] == pad[..|o.flag|];
    assert r[n] == ' ';
    assert r[n + 1..] == o.desc;
    forall k | 2 + |o.flag| <= k < n
      ensures r[k] == ' '
    {
      assert r[k] == pad[k - 2];
    }
  }

  function OptionLines(options: seq<CommandOption>): (r: seq<string>)
    ensures |r| == |options| && forall k :: 0 <= k < |options| ==> r[k] == OptionLine(options[k])
  {
    seq(|options|, k requires 0 <= k < |options| => OptionLine(options[k]))
  }

  /** `opts`: the option lines joined by newlines; empty exactly when there are no options. */
  function FormatOptions(options: seq<CommandOption>): (r: string)
    ensures r == "" <==> options == []
  {
    var lines := OptionLines(options);
    JoinHead(lines, "\n");
    Join(lines, "\n")
  }

  /** `cmd.usage || (cmd.name + (args ? " " + args : ""))`. */
  function Usage(cmd: CommandDef): string {
    var args := FmtArgs(cmd);
    UsageOr(cmd, cmd.name + (if args != "" then " " + args else ""))
  }

  /** The `Options:` block of a help page, empty when there are no options. */
  function HelpOptions(cmd: CommandDef): string {
    var opts := FormatOptions(cmd.options);
    if opts != "" then "\n\nOptions:\n" + opts else ""
  }

  /** The name line and the usage line of a help page. */
  function HelpHead(cmd: CommandDef): string {
    cmd.name + " — " + cmd.description + "\n" + "Usage: " + Usage(cmd)
  }

  /** The help page before trimming. */
  function HelpPage(cmd: CommandDef): string {
    HelpHead(cmd) + HelpOptions(cmd)
  }

  /** `formatHelp(cmd)`. */
  function FormatHelp(cmd: CommandDef): string {
    Trim(HelpPage(cmd))
  }

  /** The sections `formatMan` pushes onto `parts`; the OPTIONS section only when there are options. */
  function ManSections(cmd: CommandDef): (r: seq<string>)
    ensures |r| == if cmd.options == [] then 3 else 4
    ensures r[0] == "NAME\n    " + cmd.name + " — " + cmd.description
    ensures r[1] == "SYNOPSIS\n    " + Usage(cmd)
    ensures cmd.options != [] ==> r[2] == "OPTIONS\n" + FormatOptions(cmd.options)
    ensures r[|r| - 1] == ManDescription
  {
    var opts := FormatOptions(cmd.options);
    ["NAME\n    " + cmd.name + " — " + cmd.description, "SYNOPSIS\n    " + Usage(cmd)]
    + (if opts != "" then ["OPTIONS\n" + opts] else [])
    + [ManDescription]
  }

  const ManDescription: string := "DESCRIPTION\n    Demo manual entry. Extend as needed."

  /** `formatMan(cmd)`: the sections separated by blank lines. */
  function FormatMan(cmd: CommandDef): string {
    Join(ManSections(cmd), "\n\n")
  }

  /** `formatMan` as written: the sections pushed one by one onto `parts`, then joined. */
  method BuildMan(cmd: CommandDef) returns (page: string)
    ensures page == FormatMan(cmd)
  {
    var opts := FormatOptions(cmd.options);
    var parts: seq<string> := [];
    parts := parts + ["NAME\n    " + cmd.name + " — " + cmd.description];
    parts := parts + ["SYNOPSIS\n    " + Usage(cmd)];
    if opts != "" {
      parts := parts + ["OPTIONS\n" + opts];
    }
    parts := parts + [ManDescription];
    assert parts == ManSections(cmd);
    page := Join(parts, "\n\n");
  }

  // ---------------------------------------------------------------------------
  // Lemmas

  /** Reading a rendered argument back gives its form: the rendering loses only `optional` beside `variadic`. */
  lemma ReadFmtArg(a: CommandArg)
    ensures ReadArg(FmtArg(a)) == Form(a)
  {
    var w := FmtArg(a);
    if a.variadic {
      assert w[|w| - 1] == '.';
      assert w[|w| - 3..] == "...";
      assert w[..|w| - 3] == a.name;
    } else if a.optional {
      assert w[1..|w| - 1] == a.name;
    } else {
      assert w[0] == '<' && w[1..|w| - 1] == a.name;
    }
  }

  /** The synopsis cut at spaces gives each argument's rendering in order, when no name holds a space. */
  lemma FmtArgsWords(cmd: CommandDef)
    requires cmd.args != []
    requires forall k :: 0 <= k < |cmd.args| ==> ' ' !in cmd.args[k].name
    ensures Split(FmtArgs(cmd), ' ') == ArgWords(cmd.args)
  {
    var ws := ArgWords(cmd.args);
    forall k | 0 <= k < |ws|
      ensures ' ' !in ws[k]
    {
      var a := cmd.args[k];
      assert ws[k] == FmtArg(a);
      if a.variadic {
        assert FmtArg(a) == a.name + "...";
      } else if a.optional {
        assert FmtArg(a) == "[" + a.name + "]";
      } else {
        assert FmtArg(a) == "<" + a.name + ">";
      }
    }
    SplitJoin(ws, ' ');
  }

  /** The synopsis is empty exactly when the command takes no arguments. */
  lemma FmtArgsEmpty(cmd: CommandDef)
    ensures FmtArgs(cmd) == "" <==> cmd.args == []
  {
    var ws := ArgWords(cmd.args);
    JoinHead(ws, " ");
    if |ws| >= 1 {
      assert |FmtArg(cmd.args[0])| >= 2;
    }
  }

  /** The options block lists each option on its own line, in order, when no option text holds a newline. */
  lemma FormatOptionsLines(options: seq<CommandOption>)
    requires options != []
    requires forall k :: 0 <= k < |options| ==> '\n' !in options[k].flag && '\n' !in options[k].desc
    ensures Split(FormatOptions(options), '\n') == OptionLines(options)
  {
    var lines := OptionLines(options);
    forall k | 0 <= k < |lines|
      ensures '\n' !in lines[k]
    {
      var o := options[k];
      var pad := PadEnd(o.flag, 6);
      assert lines[k] == "  " + pad + " " + o.desc;
      assert forall i :: 0 <= i < |pad| ==> pad[i] == ' ' || pad[i] in o.flag by {
        forall i | 0 <= i < |pad|
          ensures pad[i] == ' ' || pad[i] in o.flag
        {
          if i < |o.flag| {
            assert pad[i] == pad[..|o.flag|][i];
          }
        }
      }
    }
    SplitJoin(lines, '\n');
  }

  /** Without options a help page has no `Options:` block; with options it ends with one. */
  lemma HelpOptionsIff(cmd: CommandDef)
    ensures HelpOptions(cmd) == "" <==> cmd.options == []
    ensures cmd.options != [] ==> HelpOptions(cmd) == "\n\nOptions:\n" + FormatOptions(cmd.options)
  {
  }

  /** `formatHelp` never starts or ends with whitespace. */
  lemma FormatHelpTrimmed(cmd: CommandDef)
    ensures var h := FormatHelp(cmd); h == [] || (!IsSpace(h[0]) && !IsSpace(h[|h| - 1]))
  {
    var page := HelpPage(cmd);
    var h := Trim(page);
    assert h == [] || (!IsSpace(h[0]) && !IsSpace(h[|h| - 1]));
  }

  /** A help page whose ends are not blank is not changed by trimming: name, description, usage line, options. */
  lemma FormatHelpUntrimmed(cmd: CommandDef)
    requires cmd.name != [] && !IsSpace(cmd.name[0])
    requires !IsSpace(HelpPage(cmd)[|HelpPage(cmd)| - 1])
    ensures FormatHelp(cmd) == HelpPage(cmd)
    ensures StartsWith(FormatHelp(cmd), cmd.name + " — " + cmd.description + "\nUsage: " + Usage(cmd))
  {
    HelpPageHead(cmd);
  }

  /** A help page ends where its last block ends: the usage line, or the last option's description. */
  lemma HelpPageEnd(cmd: CommandDef)
    requires Usage(cmd) != []
    requires cmd.options != [] ==> cmd.options[|cmd.options| - 1].desc != []
    ensures var p := HelpPage(cmd); var u := Usage(cmd); var o := cmd.options;
      p != [] && p[|p| - 1] == if o == [] then u[|u| - 1] else o[|o| - 1].desc[|o[|o| - 1].desc| - 1]
  {
    HelpOptionsIff(cmd);
    var u := Usage(cmd);
    var head := HelpHead(cmd);
    LastOfAppend(cmd.name + " — " + cmd.description + "\n" + "Usage: ", u);
    if cmd.options != [] {
      var o := cmd.options[|cmd.options| - 1];
      var j := FormatOptions(cmd.options);
      OptionsLast(cmd.options);
      LastOfAppend("\n\nOptions:\n", j);
      LastOfAppend(head, "\n\nOptions:\n" + j);
    } else {
      assert HelpPage(cmd) == head + "";
    }
  }

  /** The options block ends with the last option's description. */
  lemma OptionsLast(options: seq<CommandOption>)
    requires options != [] && options[|options| - 1].desc != []
    ensures var j := FormatOptions(options); var d := options[|options| - 1].desc;
      j != [] && j[|j| - 1] == d[|d| - 1]
  {
    var lines := OptionLines(options);
    var o := options[|options| - 1];
    LastOfAppend("  " + PadEnd(o.flag, 6) + " ", o.desc);
    JoinLastChar(lines, "\n");
  }

  /** A join ends with the last character of its last piece. */
  lemma JoinLastChar(xs: seq<string>, sep: string)
    requires xs != [] && xs[|xs| - 1] != []
    ensures var j := Join(xs, sep); var x := xs[|xs| - 1]; j != [] && j[|j| - 1] == x[|x| - 1]
  {
    if |xs| >= 2 {
      var x := xs[|xs| - 1];
      JoinLast(xs, sep);
      LastOfAppend(sep, x);
    }
  }

  lemma LastOfAppend(a: string, b: string)
    requires b != []
    ensures a + b != [] && (a + b)[|a + b| - 1] == b[|b| - 1]
  {
  }

  /** A definition whose name starts, and whose usage and last option description end, with a visible ASCII character. */
  predicate TidyEnds(cmd: CommandDef) {
    cmd.name != [] && Visible(cmd.name[0])
    && cmd.usage.Some? && cmd.usage.value != [] && Visible(cmd.usage.value[|cmd.usage.value| - 1])
    && (cmd.options != [] ==>
          var d := cmd.options[|cmd.options| - 1].desc; d != [] && Visible(d[|d| - 1]))
  }

  predicate Visible(c: char) {
    '!' <= c <= '~'
  }

  /** Every registered definition has tidy ends. */
  lemma RegisteredTidy(c: CommandDef)
    requires c in Commands
    ensures TidyEnds(c)
  {
  }

  /** With tidy ends, `formatHelp`'s trim changes nothing, so the help page opens with the name line and the usage line. */
  lemma TidyHelpHead(c: CommandDef)
    requires TidyEnds(c)
    ensures FormatHelp(c) == HelpPage(c)
    ensures StartsWith(FormatHelp(c), c.name + " — " + c.description + "\nUsage: " + Usage(c))
  {
    assert Usage(c) == c.usage.value;
    HelpPageEnd(c);
    FormatHelpUntrimmed(c);
  }

  /** For every registered command, `formatHelp`'s trim changes nothing, so the help page opens with the name line and the usage line. */
  lemma RegisteredHelpHead(n: string)
    requires ByName(n).Some?
    ensures var c := ByName(n).value;
      FormatHelp(c) == HelpPage(c)
      && StartsWith(FormatHelp(c), c.name + " — " + c.description + "\nUsage: " + Usage(c))
  {
    ByNameIff(n);
    RegisteredTidy(ByName(n).value);
    TidyHelpHead(ByName(n).value);
  }

  lemma HelpPageHead(cmd: CommandDef)
    requires cmd.name != []
    ensures HelpPage(cmd)[0] == cmd.name[0]
    ensures StartsWith(HelpPage(cmd), cmd.name + " — " + cmd.description + "\nUsage: " + Usage(cmd))
  {
    var x := cmd.name + " — " + cmd.description;
    var head := HelpHead(cmd);
    assert head == x + "\nUsage: " + Usage(cmd) by {
      UsageLine(x, Usage(cmd));
    }
    assert head[0] == cmd.name[0] by {
      assert x[0] == cmd.name[0];
    }
    PrefixOf(head, HelpOptions(cmd));
  }

  /** The name line and the usage line joined by a newline, however the pieces are grouped. */
  lemma UsageLine(x: string, usage: string)
    ensures x + "\n" + "Usage: " + usage == x + "\nUsage: " + usage
  {
    assert "\n" + "Usage: " == "\nUsage: ";
    assert x + "\n" + "Usage: " == x + ("\n" + "Usage: ");
  }


  /** The usage falls back to the name and synopsis when the definition has none. */
  lemma UsageFallback(cmd: CommandDef)
    requires cmd.usage.None? || cmd.usage == Some("")
    ensures cmd.args == [] ==> Usage(cmd) == cmd.name
    ensures cmd.args != [] ==> Usage(cmd) == cmd.name + " " + FmtArgs(cmd)
  {
    FmtArgsEmpty(cmd);
    assert cmd.name + "" == cmd.name;
  }

  /** The manual page starts with its NAME section and ends with its DESCRIPTION section. */
  lemma FormatManSections(cmd: CommandDef)
    ensures StartsWith(FormatMan(cmd), "NAME\n    " + cmd.name + " — " + cmd.description + "\n\nSYNOPSIS\n    " + Usage(cmd))
    ensures EndsWith(FormatMan(cmd), "\n\n" + ManDescription)
  {
    FormatManStart(cmd);
    JoinLast(ManSections(cmd), "\n\n");
  }

  lemma FormatManStart(cmd: CommandDef)
    ensures StartsWith(FormatMan(cmd), "NAME\n    " + cmd.name + " — " + cmd.description + "\n\nSYNOPSIS\n    " + Usage(cmd))
  {
    var s := ManSections(cmd);
    var head := s[0] + "\n\n" + s[1];
    JoinFirstTwo(s, "\n\n");
    PrefixOf(head, "\n\n" + Join(s[2..], "\n\n"));
    SynopsisGlue(s[0], Usage(cmd));
  }

  /** A join of three or more pieces starts with the first two and the separator between them. */
  lemma JoinFirstTwo(xs: seq<string>, sep: string)
    requires |xs| >= 3
    ensures Join(xs, sep) == (xs[0] + sep + xs[1]) + (sep + Join(xs[2..], sep))
  {
    assert [xs[0]] + xs[1..] == xs;
    JoinCons(xs[0], xs[1..], sep);
    assert [xs[1]] + xs[2..] == xs[1..];
    JoinCons(xs[1], xs[2..], sep);
    Regroup(xs[0], sep, xs[1], Join(xs[2..], sep));
  }

  lemma Regroup(a: string, sep: string, b: string, rest: string)
    ensures a + sep + (b + sep + rest) == (a + sep + b) + (sep + rest)
  {
  }


  lemma SynopsisGlue(name: string, usage: string)
    ensures name + "\n\n" + ("SYNOPSIS\n    " + usage) == name + "\n\nSYNOPSIS\n    " + usage
  {
    assert "\n\n" + "SYNOPSIS\n    " == "\n\nSYNOPSIS\n    ";
    assert name + "\n\n" + ("SYNOPSIS\n    " + usage) == name + ("\n\n" + "SYNOPSIS\n    ") + usage;
  }

  /** A join of two or more pieces ends with the separator and the last piece. */
  lemma {:induction false} JoinLast(xs: seq<string>, sep: string)
    requires |xs| >= 2
    ensures EndsWith(Join(xs, sep), sep + xs[|xs| - 1])
    decreases |xs|
  {
    JoinCons(xs[0], xs[1..], sep);
    var tail := sep + xs[|xs| - 1];
    if |xs| == 2 {
      assert Join(xs, sep) == xs[0] + tail;
    } else {
      JoinLast(xs[1..], sep);
      var j := Join(xs[1..], sep);
      assert Join(xs, sep) == (xs[0] + sep) + j;
      assert j[|j| - |tail|..] == tail;
      var whole := (xs[0] + sep) + j;
      assert whole[|whole| - |tail|..] == j[|j| - |tail|..];
    }
  }
}

/**
 * The completion engine of src/Shell/service.ts (repeated in
 * src/Shell/prompt.ts): `buildSuggestions`, `inlineHelp` and
 * `applySuggestionToInput`.
 *
 * `Suggestions` is the value `buildSuggestions` returns, written as a
 * function of the tree, the working directory and the input line; the method
 * `BuildSuggestions` follows the source's loops (the path candidates pushed
 * one child at a time, the deduplication through a set of seen keys) and is
 * proved to return it.
 */
module Suggest {
  import opened Wrappers
  import opened Strings
  import opened FileSystem
  import opened Registry
  import Utils

  /** What a suggestion completes. */
  datatype Kind = CommandKind | FlagKind | FileKind | DirKind

  /** The `kind` string of a suggestion. */
  function KindName(k: Kind): (r: string)
    ensures '|' !in r
  {
    match k
    case CommandKind => "command"
    case FlagKind => "flag"
    case FileKind => "file"
    case DirKind => "dir"
  }

  datatype Suggestion = Suggestion(kind: Kind, text: string, hint: string)

  /** `xs.slice(0, n)`. */
  function Take<T>(xs: seq<T>, n: nat): (r: seq<T>)
    ensures |r| == if |xs| < n then |xs| else n
    ensures r == xs[..|r|]
  {
    if |xs| <= n then xs else xs[..n]
  }

  // ---------------------------------------------------------------------------
  // Command mode

  /** No token yet, or a single token not yet ended by a space (a tab does not end it). */
  predicate CommandMode(input: string, tokens: seq<string>) {
    |tokens| == 0 || (|tokens| == 1 && !EndsWith(input, " "))
  }

  function CommandItem(c: CommandDef): Suggestion {
    Suggestion(CommandKind, c.name, c.description)
  }

  function CommandItems(list: seq<CommandDef>): (r: seq<Suggestion>)
    ensures |r| == |list| && forall k :: 0 <= k < |list| ==> r[k] == CommandItem(list[k])
  {
    seq(|list|, k requires 0 <= k < |list| => CommandItem(list[k]))
  }

  /** The registered commands whose name starts with `prefix`. */
  function Matching(prefix: string): seq<CommandDef> {
    Filter(All(), (c: CommandDef) => StartsWith(c.name, prefix))
  }

  /** The command candidates: the matching commands in registry order, at most 8. */
  function CommandSuggestions(prefix: string): seq<Suggestion> {
    Take(CommandItems(Matching(prefix)), 8)
  }

  /** `(tokens[0] || "").toLowerCase()`. */
  function CommandPrefix(tokens: seq<string>): string {
    ToLower(if tokens == [] then "" else tokens[0])
  }

  // ---------------------------------------------------------------------------
  // Flags

  function FlagItem(f: string): Suggestion {
    Suggestion(FlagKind, f, "option")
  }

  function FlagItems(flags: seq<string>): (r: seq<Suggestion>)
    ensures |r| == |flags| && forall k :: 0 <= k < |flags| ==> r[k] == FlagItem(flags[k])
  {
    seq(|flags|, k requires 0 <= k < |flags| => FlagItem(flags[k]))
  }

  function Flags(options: seq<CommandOption>): (r: seq<string>)
    ensures |r| == |options| && forall k :: 0 <= k < |options| ==> r[k] == options[k].flag
  {
    seq(|options|, k requires 0 <= k < |options| => options[k].flag)
  }

  /** The flag candidates: every option after a space, else those starting with the last token. */
  function FlagSuggestions(options: seq<CommandOption>, last: string, entering: bool): seq<Suggestion> {
    FlagItems(Filter(Flags(options), f => entering || StartsWith(f, last)))
  }

  // ---------------------------------------------------------------------------
  // Paths

  /** `enteringNewToken ? "." : last || "."`. */
  function Base(last: string, entering: bool): string {
    if entering then "." else if last != "" then last else "."
  }

  /** `until`: the base itself when it ends in `/`, else everything before its last `/`. */
  function Until(base: string): string {
    if EndsWith(base, "/") then base
    else
      var parts := Split(base, '/');
      Join(parts[..|parts| - 1], "/")
  }

  /** The directory whose children are listed. */
  function DirPath(base: string): string {
    if EndsWith(base, "/") then base else if Until(base) != "" then Until(base) else "."
  }

  /** The text the children's names must start with: what follows the last `/`. */
  function NamePrefix(base: string): string {
    if EndsWith(base, "/") then ""
    else
      var parts := Split(base, '/');
      parts[|parts| - 1]
  }

  /** `!prefix || n.startsWith(prefix)`. */
  predicate Offered(prefix: string, n: string) {
    prefix == "" || StartsWith(n, prefix)
  }

  /** The completed path: the directory part, the name, and `/` for a directory. */
  function Label(base: string, n: string, isDir: bool): string {
    var until := Until(base);
    (if EndsWith(base, "/") then base + n else (if until != "" then until + "/" else "") + n)
    + (if isDir then "/" else "")
  }

  /** The candidate for child `n`: its kind and hint are the node's type. */
  function PathItem(base: string, n: string, node: Node): Suggestion {
    var kind := if node.Dir? then DirKind else FileKind;
    Suggestion(kind, Label(base, n, node.Dir?), KindName(kind))
  }

  /** `children[n]` as a candidate, when offered. */
  function ItemOf(children: seq<Entry>, base: string, n: string): seq<Suggestion> {
    if !Offered(NamePrefix(base), n) then []
    else
      match Child(children, n)
      case Some(node) => [PathItem(base, n, node)]
      case None => []
  }

  /** The candidates the loop over `names` pushes, in order. */
  function PathItems(children: seq<Entry>, names: seq<string>, base: string): seq<Suggestion>
    decreases |names|
  {
    if names == [] then []
    else PathItems(children, names[..|names| - 1], base) + ItemOf(children, base, names[|names| - 1])
  }

  /** The path candidates: none after a flag; else the offered children of the directory part, if it is a directory. */
  function PathSuggestions(root: Node, cwd: string, last: string, entering: bool): seq<Suggestion> {
    if StartsWith(last, "-") then []
    else
      var base := Base(last, entering);
      match Locate(root, cwd, DirPath(base))
      case Some((Dir(children), _)) => PathItems(children, Keys(children), base)
      case _ => []
  }

  // ---------------------------------------------------------------------------
  // Deduplication and the whole result

  /** A candidate's identity: kind and text (the `label` field). */
  function Key(s: Suggestion): string {
    KindName(s.kind) + "|" + s.text
  }

  function KeysOf(xs: seq<Suggestion>): set<string> {
    set x | x in xs :: Key(x)
  }

  /** The candidates with every repeated key after its first occurrence dropped. */
  function Dedup(xs: seq<Suggestion>): seq<Suggestion>
    decreases |xs|
  {
    if xs == [] then []
    else
      var d := Dedup(xs[..|xs| - 1]);
      var x := xs[|xs| - 1];
      if Key(x) in KeysOf(d) then d else d + [x]
  }

  /** `buildSuggestions(input, fs)`. */
  function Suggestions(root: Node, cwd: string, input: string): seq<Suggestion> {
    var tokens := Utils.Tokens(input);
    if CommandMode(input, tokens) then CommandSuggestions(CommandPrefix(tokens))
    else
      match ByName(tokens[0])
      case None => []
      case Some(cmd) => ArgumentSuggestions(root, cwd, cmd, tokens[|tokens| - 1], EndsWith(input, " "))
  }

  /** Argument mode: the flags, then the paths, deduplicated and cut to 10. */
  function ArgumentSuggestions(root: Node, cwd: string, cmd: CommandDef, last: string, entering: bool): seq<Suggestion> {
    Take(Dedup(FlagSuggestions(cmd.options, last, entering) + PathSuggestions(root, cwd, last, entering)), 10)
  }

  /** The loop collecting the path candidates. */
  method CollectPaths(children: seq<Entry>, base: string) returns (items: seq<Suggestion>)
    ensures items == PathItems(children, Keys(children), base)
  {
    var names := Keys(children);
    var prefix := NamePrefix(base);
    items := [];
    for i := 0 to |names|
      invariant items == PathItems(children, names[..i], base)
    {
      var n := names[i];
      assert names[..i + 1][..i] == names[..i];
      if prefix == "" || StartsWith(n, prefix) {
        assert children[i].name == n;
        var child := Child(children, n).value;
        items := items + [PathItem(base, n, child)];
      }
    }
    assert names[..|names|] == names;
  }

  /** The loop keeping the first candidate of each key, with the set of keys seen so far. */
  method Unique(all: seq<Suggestion>) returns (uniq: seq<Suggestion>)
    ensures uniq == Dedup(all)
  {
    uniq := [];
    var seen: set<string> := {};
    for i := 0 to |all|
      invariant uniq == Dedup(all[..i])
      invariant seen == KeysOf(uniq)
    {
      var it := all[i];
      var key := Key(it);
      assert all[..i + 1][..i] == all[..i];
      if key !in seen {
        seen := seen + {key};
        uniq := uniq + [it];
      }
    }
    assert all[..|all|] == all;
  }

  /** `buildSuggestions`: reads the filesystem and changes nothing. */
  method BuildSuggestions(fs: VirtualFS, input: string) returns (r: seq<Suggestion>)
    ensures r == Suggestions(fs.root, fs.cwd, input)
  {
    var tokens := Utils.Tokenize(input);
    if |tokens| == 0 || (|tokens| == 1 && !EndsWith(input, " ")) {
      return CommandSuggestions(CommandPrefix(tokens));
    }
    var cmd := ByName(tokens[0]);
    if cmd.None? {
      return [];
    }
    var last := tokens[|tokens| - 1];
    var entering := EndsWith(input, " ");
    var flagCandidates := FlagSuggestions(cmd.value.options, last, entering);
    var pathItems := PathCandidates(fs, last, entering);
    var uniq := Unique(flagCandidates + pathItems);
    r := Take(uniq, 10);
    assert r == ArgumentSuggestions(fs.root, fs.cwd, cmd.value, last, entering);
  }

  /** The path part of `buildSuggestions`: nothing after a flag, else the offered children of the directory part. */
  method PathCandidates(fs: VirtualFS, last: string, entering: bool) returns (items: seq<Suggestion>)
    ensures items == PathSuggestions(fs.root, fs.cwd, last, entering)
  {
    items := [];
    if !StartsWith(last, "-") {
      var base := Base(last, entering);
      var dirRes := GetNode(fs, DirPath(base));
      if dirRes.Some? && dirRes.value.0.Dir? {
        items := CollectPaths(dirRes.value.0.children, base);
      }
    }
  }

  // ---------------------------------------------------------------------------
  // inlineHelp and applySuggestionToInput

  /** `inlineHelp(input)`: the usage line of the command being typed. */
  function InlineHelp(input: string): string {
    var t := Utils.Tokens(input);
    if t == [] then "Type a command. Try 'help' or 'ls -l'."
    else
      match ByName(t[0])
      case None => "Unknown command. Type 'help'."
      case Some(cmd) => UsageOr(cmd, cmd.name)
  }

  /** `applySuggestionToInput(input, label)`. */
  function ApplySuggestion(input: string, choice: string): string {
    var t := Utils.Tokens(input);
    if CommandMode(input, t) then choice + " "
    else if EndsWith(input, " ") then input + choice
    else
      var idx := LastIndexOf(input, ' ');
      input[..idx + 1] + choice
  }

  // ---------------------------------------------------------------------------
  // Lemmas: keys and deduplication

  /** Two candidates share a key exactly when they share kind and text. */
  lemma KeyInjective(a: Suggestion, b: Suggestion)
    ensures Key(a) == Key(b) <==> a.kind == b.kind && a.text == b.text
  {
    if Key(a) == Key(b) {
      BarSplit(KindName(a.kind), KindName(b.kind), a.text, b.text);
    }
  }

  /** The first `|` separates a bar-free head from the rest. */
  lemma BarSplit(h1: string, h2: string, t1: string, t2: string)
    requires '|' !in h1 && '|' !in h2 && h1 + "|" + t1 == h2 + "|" + t2
    ensures h1 == h2 && t1 == t2
  {
    var w := h1 + "|" + t1;
    assert w[|h1|] == '|' && w[|h2|] == '|';
    assert forall i :: 0 <= i < |h1| ==> w[i] == h1[i];
    assert forall i :: 0 <= i < |h2| ==> w[i] == h2[i];
    assert h1 == w[..|h1|] && t1 == w[|h1| + 1..];
    assert h2 == w[..|h2|] && t2 == w[|h2| + 1..];
  }

  lemma KeysOfAppend(a: seq<Suggestion>, b: seq<Suggestion>)
    ensures KeysOf(a + b) == KeysOf(a) + KeysOf(b)
  {
    forall k | k in KeysOf(a + b)
      ensures k in KeysOf(a) + KeysOf(b)
    {
      var x :| x in a + b && Key(x) == k;
    }
    forall k | k in KeysOf(a) + KeysOf(b)
      ensures k in KeysOf(a + b)
    {
      if k in KeysOf(a) {
        var x :| x in a && Key(x) == k;
        assert x in a + b;
      } else {
        var x :| x in b && Key(x) == k;
        assert x in a + b;
      }
    }
  }

  /** Deduplication keeps every key. */
  lemma {:induction false} DedupKeys(xs: seq<Suggestion>)
    ensures KeysOf(Dedup(xs)) == KeysOf(xs)
    decreases |xs|
  {
    if xs != [] {
      var init, x := xs[..|xs| - 1], xs[|xs| - 1];
      DedupKeys(init);
      assert xs == init + [x];
      KeysOfAppend(init, [x]);
      KeysOfAppend(Dedup(init), [x]);
      assert KeysOf([x]) == {Key(x)};
    }
  }

  /** Deduplication keeps only candidates of the input, in their order: the result is a prefix-closed selection. */
  lemma {:induction false} DedupMembers(xs: seq<Suggestion>)
    ensures forall x :: x in Dedup(xs) ==> x in xs
    decreases |xs|
  {
    if xs != [] {
      DedupMembers(xs[..|xs| - 1]);
      assert forall x :: x in xs[..|xs| - 1] ==> x in xs;
    }
  }

  /** No two kept candidates share a key. */
  lemma {:induction false} DedupDistinct(xs: seq<Suggestion>)
    ensures forall i, j :: 0 <= i < j < |Dedup(xs)| ==> Key(Dedup(xs)[i]) != Key(Dedup(xs)[j])
    decreases |xs|
  {
    if xs != [] {
      var init, x := xs[..|xs| - 1], xs[|xs| - 1];
      var d := Dedup(init);
      DedupDistinct(init);
      if Key(x) !in KeysOf(d) {
        assert forall i :: 0 <= i < |d| ==> Key(d[i]) in KeysOf(d);
      }
    }
  }

  /** Deduplication of a longer input extends that of a shorter one. */
  lemma {:induction false} DedupGrows(xs: seq<Suggestion>, n: nat)
    requires n <= |xs|
    ensures |Dedup(xs[..n])| <= |Dedup(xs)| && Dedup(xs)[..|Dedup(xs[..n])|] == Dedup(xs[..n])
    decreases |xs| - n
  {
    if n < |xs| {
      var init := xs[..|xs| - 1];
      assert init[..n] == xs[..n];
      DedupGrows(init, n);
    } else {
      assert xs[..n] == xs;
    }
  }

  /** The first candidate with a given key is kept. */
  lemma {:induction false} DedupFirst(xs: seq<Suggestion>, j: nat)
    requires j < |xs|
    requires forall i :: 0 <= i < j ==> Key(xs[i]) != Key(xs[j])
    ensures xs[j] in Dedup(xs)
  {
    var pre := xs[..j];
    DedupKeys(pre);
    assert Key(xs[j]) !in KeysOf(pre);
    assert xs[..j + 1] == pre + [xs[j]];
    assert Dedup(xs[..j + 1]) == Dedup(pre) + [xs[j]];
    DedupGrows(xs, j + 1);
    var d := Dedup(xs[..j + 1]);
    assert Dedup(xs)[|d| - 1] == d[|d| - 1];
  }

  /** When no key repeats, deduplication changes nothing. */
  lemma {:induction false} DedupNoRepeat(xs: seq<Suggestion>)
    requires DistinctKeys(xs)
    ensures Dedup(xs) == xs
    decreases |xs|
  {
    if xs != [] {
      var init, x := xs[..|xs| - 1], xs[|xs| - 1];
      assert init + [x] == xs;
      DistinctInit(xs);
      DedupNoRepeat(init);
      LastKeyFresh(xs);
      DedupSnoc(init, x);
    }
  }

  /** No two candidates share a key. */
  predicate DistinctKeys(xs: seq<Suggestion>) {
    forall i, j :: 0 <= i < j < |xs| ==> Key(xs[i]) != Key(xs[j])
  }

  lemma DistinctInit(xs: seq<Suggestion>)
    requires xs != [] && DistinctKeys(xs)
    ensures DistinctKeys(xs[..|xs| - 1])
  {
    var init := xs[..|xs| - 1];
    forall i, j | 0 <= i < j < |init|
      ensures Key(init[i]) != Key(init[j])
    {
      assert init[i] == xs[i] && init[j] == xs[j];
    }
  }

  lemma LastKeyFresh(xs: seq<Suggestion>)
    requires xs != [] && DistinctKeys(xs)
    ensures Key(xs[|xs| - 1]) !in KeysOf(xs[..|xs| - 1])
  {
    var init := xs[..|xs| - 1];
    forall y | y in init
      ensures Key(y) != Key(xs[|xs| - 1])
    {
      var i :| 0 <= i < |init| && init[i] == y;
      assert y == xs[i];
    }
  }


  /** One more candidate is kept exactly when its key is new. */
  lemma DedupSnoc(xs: seq<Suggestion>, y: Suggestion)
    ensures Dedup(xs + [y]) == if Key(y) in KeysOf(Dedup(xs)) then Dedup(xs) else Dedup(xs) + [y]
  {
    assert (xs + [y])[..|xs|] == xs;
  }

  /** Inputs with no key in common are deduplicated separately. */
  lemma {:induction false} DedupDisjoint(a: seq<Suggestion>, b: seq<Suggestion>)
    requires KeysOf(a) !! KeysOf(b)
    ensures Dedup(a + b) == Dedup(a) + Dedup(b)
    decreases |b|
  {
    if b == [] {
      assert a + b == a;
    } else {
      var init, y := b[..|b| - 1], b[|b| - 1];
      DisjointInit(a, b);
      DedupDisjoint(a, init);
      assert a + b == (a + init) + [y];
      DedupSnoc(a + init, y);
      DedupSnoc(init, y);
      var da, di := Dedup(a), Dedup(init);
      DedupKeys(a);
      DedupKeys(init);
      KeysOfAppend(da, di);
      assert KeysOf(Dedup(a + init)) == KeysOf(da) + KeysOf(di);
      if Key(y) in KeysOf(di) {
        assert Dedup(a + b) == da + di;
      } else {
        assert Key(y) !in KeysOf(Dedup(a + init));
        assert Dedup(a + b) == (da + di) + [y];
        assert (da + di) + [y] == da + (di + [y]);
      }
    }
  }

  lemma DisjointInit(a: seq<Suggestion>, b: seq<Suggestion>)
    requires b != [] && KeysOf(a) !! KeysOf(b)
    ensures KeysOf(a) !! KeysOf(b[..|b| - 1]) && Key(b[|b| - 1]) !in KeysOf(a)
    ensures b == b[..|b| - 1] + [b[|b| - 1]]
  {
    var init, y := b[..|b| - 1], b[|b| - 1];
    assert b == init + [y];
    KeysOfAppend(init, [y]);
    assert Key(y) in KeysOf([y]);
  }

  // ---------------------------------------------------------------------------
  // Lemmas: the parts of the argument-mode result

  /** Every flag candidate is a flag of the command, offered as such. */
  lemma FlagSuggestionsFacts(options: seq<CommandOption>, last: string, entering: bool)
    ensures forall s :: s in FlagSuggestions(options, last, entering) <==>
      s.kind == FlagKind && s.hint == "option" && s.text in Flags(options) && (entering || StartsWith(s.text, last))
  {
    var p := (f: string) => entering || StartsWith(f, last);
    var kept := Filter(Flags(options), p);
    FilterMembers(Flags(options), p);
    forall s | s in FlagSuggestions(options, last, entering)
      ensures s == FlagItem(s.text) && s.text in kept
    {
      var k :| 0 <= k < |kept| && FlagItems(kept)[k] == s;
    }
    forall s: Suggestion | s.kind == FlagKind && s.hint == "option" && s.text in kept
      ensures s in FlagSuggestions(options, last, entering)
    {
      var k :| 0 <= k < |kept| && kept[k] == s.text;
      assert FlagItems(kept)[k] == s;
    }
  }

  /** Each path candidate is an offered child of the listed directory, completed by `PathItem`. */
  lemma {:induction false} PathItemsSound(children: seq<Entry>, names: seq<string>, base: string)
    ensures forall s :: s in PathItems(children, names, base) ==>
      exists n :: n in names && Offered(NamePrefix(base), n) && Child(children, n).Some? && s == PathItem(base, n, Child(children, n).value)
    decreases |names|
  {
    if names != [] {
      var init := names[..|names| - 1];
      PathItemsSound(children, init, base);
      assert forall n :: n in init ==> n in names;
    }
  }

  /** Every offered child of the listed directory is a path candidate. */
  lemma {:induction false} PathItemsComplete(children: seq<Entry>, names: seq<string>, base: string, n: string)
    requires n in names && Offered(NamePrefix(base), n) && Child(children, n).Some?
    ensures PathItem(base, n, Child(children, n).value) in PathItems(children, names, base)
    decreases |names|
  {
    var init := names[..|names| - 1];
    if n != names[|names| - 1] {
      assert n in init;
      PathItemsComplete(children, init, base, n);
    }
  }

  /** Path candidates have a file or directory kind, so no path candidate shares a key with a flag. */
  lemma FlagsThenPaths(flags: seq<Suggestion>, paths: seq<Suggestion>)
    requires forall s :: s in flags ==> s.kind == FlagKind
    requires forall s :: s in paths ==> s.kind == FileKind || s.kind == DirKind
    ensures Dedup(flags + paths) == Dedup(flags) + Dedup(paths)
  {
    forall k | k in KeysOf(flags) && k in KeysOf(paths)
      ensures false
    {
      var a :| a in flags && Key(a) == k;
      var b :| b in paths && Key(b) == k;
      KeyInjective(a, b);
    }
    DedupDisjoint(flags, paths);
  }

  /** The kinds of the path candidates. */
  lemma PathSuggestionsKinds(root: Node, cwd: string, last: string, entering: bool)
    ensures forall s :: s in PathSuggestions(root, cwd, last, entering) ==> s.kind == FileKind || s.kind == DirKind
  {
    if !StartsWith(last, "-") {
      var base := Base(last, entering);
      match Locate(root, cwd, DirPath(base))
      case Some((Dir(children), _)) => PathItemsSound(children, Keys(children), base);
      case _ =>
    }
  }

  /** In argument mode the flag candidates come first, then the path candidates, each deduplicated, at most 10 in all. */
  lemma ArgumentModeOrder(root: Node, cwd: string, input: string)
    requires !CommandMode(input, Utils.Tokens(input))
    requires ByName(Utils.Tokens(input)[0]).Some?
    ensures var t := Utils.Tokens(input);
      var cmd := ByName(t[0]).value;
      var last := t[|t| - 1];
      var entering := EndsWith(input, " ");
      Suggestions(root, cwd, input)
        == Take(Dedup(FlagSuggestions(cmd.options, last, entering)) + Dedup(PathSuggestions(root, cwd, last, entering)), 10)
  {
    var t := Utils.Tokens(input);
    var cmd := ByName(t[0]).value;
    var last := t[|t| - 1];
    var entering := EndsWith(input, " ");
    FlagSuggestionsFacts(cmd.options, last, entering);
    PathSuggestionsKinds(root, cwd, last, entering);
    FlagsThenPaths(FlagSuggestions(cmd.options, last, entering), PathSuggestions(root, cwd, last, entering));
  }

  /** An unknown first word yields no candidates at all. */
  lemma UnknownCommandNothing(root: Node, cwd: string, input: string)
    requires !CommandMode(input, Utils.Tokens(input))
    requires ByName(Utils.Tokens(input)[0]).None?
    ensures Suggestions(root, cwd, input) == []
  {
  }

  /** After a flag no path is offered: only matching flags (all flags, after a space). */
  lemma NoPathAfterFlag(root: Node, cwd: string, last: string, entering: bool)
    requires StartsWith(last, "-")
    ensures PathSuggestions(root, cwd, last, entering) == []
  {
  }

  // ---------------------------------------------------------------------------
  // Lemmas: the directory part and the name part of a token

  /** A token not ending in `/` is its directory part, a `/` and its name part; without a `/` it is all name. */
  lemma BaseParts(base: string)
    requires !EndsWith(base, "/")
    ensures '/' in base ==> base == Until(base) + "/" + NamePrefix(base)
    ensures '/' !in base ==> Until(base) == "" && NamePrefix(base) == base
    ensures '/' !in NamePrefix(base)
  {
    var parts := Split(base, '/');
    JoinSplit(base, '/');
    if |parts| == 1 {
      assert Join(parts, "/") == parts[0];
      assert Until(base) == Join([], "/");
    } else {
      var init := parts[..|parts| - 1];
      assert parts == init + [parts[|parts| - 1]];
      JoinSnoc(init, parts[|parts| - 1], "/");
      assert base == Join(init, "/") + "/" + NamePrefix(base);
      assert base[|Join(init, "/")|] == '/';
    }
  }

  lemma LabelSplit(until: string, prefix: string, n: string, tail: string)
    requires |prefix| <= |n| && n == prefix + n[|prefix|..]
    ensures until + "/" + n + tail == until + "/" + prefix + (n[|prefix|..] + tail)
  {
  }

  /** A completion extends what was typed, except for a token whose only `/` is its first character. */
  lemma LabelExtendsToken(base: string, n: string, isDir: bool)
    requires Offered(NamePrefix(base), n)
    requires EndsWith(base, "/") || Until(base) != "" || '/' !in base
    ensures StartsWith(Label(base, n, isDir), base)
  {
    var tail := if isDir then "/" else "";
    if EndsWith(base, "/") {
      assert Label(base, n, isDir) == base + (n + tail);
      PrefixOf(base, n + tail);
    } else {
      BaseParts(base);
      var prefix := NamePrefix(base);
      var rest := n[|prefix|..] + tail;
      assert n == prefix + n[|prefix|..];
      if '/' in base {
        LabelSplit(Until(base), prefix, n, tail);
        assert Label(base, n, isDir) == base + rest;
      } else {
        assert Label(base, n, isDir) == n + tail;
        assert n + tail == base + rest;
      }
      PrefixOf(base, rest);
    }
  }



  /** A token `a/b` lists directory `a` filtered by `b` and completes to `a/` + name. */
  lemma NestedToken(dir: string, name: string)
    requires dir != "" && name != "" && '/' !in name
    ensures Until(dir + "/" + name) == dir && NamePrefix(dir + "/" + name) == name && DirPath(dir + "/" + name) == dir
  {
    var base := dir + "/" + name;
    assert base == dir + ['/'] + name;
    SplitAppend(dir, name, '/');
    SplitNoSep(name, '/');
    var parts := Split(base, '/');
    assert parts == Split(dir, '/') + [name];
    assert parts[..|parts| - 1] == Split(dir, '/');
    JoinSplit(dir, '/');
    assert !EndsWith(base, "/") by {
      assert base[|base| - 1] == name[|name| - 1];
    }
  }

  /** After a space the token is `"."`: the working directory is listed, filtered by `"."`. */
  lemma TrailingSpaceQuirk(last: string)
    ensures Base(last, true) == "."
    ensures Until(".") == "" && DirPath(".") == "." && NamePrefix(".") == "."
  {
    SplitNoSep(".", '/');
    assert Split(".", '/')[..0] == [];
  }

  /** After a space only working-directory children whose names start with `.` are offered, under their bare names. */
  lemma TrailingSpaceDotNames(root: Node, cwd: string, last: string)
    ensures forall s :: s in PathSuggestions(root, cwd, last, true) ==>
      exists n, node :: StartsWith(n, ".") && s == PathItem(".", n, node)
        && Label(".", n, node.Dir?) == n + (if node.Dir? then "/" else "")
  {
    TrailingSpaceQuirk(last);
    if !StartsWith(last, "-") {
      match Locate(root, cwd, ".")
      case Some((Dir(children), _)) =>
        PathItemsSound(children, Keys(children), ".");
        assert !EndsWith(".", "/");
      case _ =>
    }
  }

  /** A token `/x` with no other `/` lists the working directory, not the root, and completes to the bare name. */
  lemma LeadingSlashQuirk(x: string, n: string, isDir: bool)
    requires x != "" && '/' !in x
    ensures Until("/" + x) == "" && DirPath("/" + x) == "." && NamePrefix("/" + x) == x
    ensures Label("/" + x, n, isDir) == n + (if isDir then "/" else "")
  {
    var base := "/" + x;
    assert base == "" + ['/'] + x;
    SplitAppend("", x, '/');
    SplitNoSep(x, '/');
    assert Split(base, '/') == ["", x];
    assert !EndsWith(base, "/") by {
      assert base[|base| - 1] == x[|x| - 1];
    }
  }

  // ---------------------------------------------------------------------------
  // Lemmas: command mode

  /** The matching commands are exactly the registered commands with the prefix. */
  lemma MatchingMembers(prefix: string)
    ensures forall c :: c in Matching(prefix) <==> c in All() && StartsWith(c.name, prefix)
  {
    FilterMembers(All(), (c: CommandDef) => StartsWith(c.name, prefix));
  }

  /** Every command candidate is a registered command with the prefix, with its description as hint. */
  lemma CommandSuggestionsSound(prefix: string)
    ensures forall s :: s in CommandSuggestions(prefix) ==>
      exists c :: c in All() && StartsWith(c.name, prefix) && s == CommandItem(c)
  {
    var m := Matching(prefix);
    var r := CommandSuggestions(prefix);
    MatchingMembers(prefix);
    forall s | s in r
      ensures exists c :: c in All() && StartsWith(c.name, prefix) && s == CommandItem(c)
    {
      var k :| 0 <= k < |r| && r[k] == s;
      assert r[k] == CommandItems(m)[k];
      assert m[k] in m;
    }
  }

  /** When at most 8 commands match, every one of them is offered. */
  lemma CommandSuggestionsComplete(prefix: string)
    requires |Matching(prefix)| <= 8
    ensures forall c :: c in All() && StartsWith(c.name, prefix) ==> CommandItem(c) in CommandSuggestions(prefix)
  {
    var m := Matching(prefix);
    var r := CommandSuggestions(prefix);
    MatchingMembers(prefix);
    assert r == CommandItems(m);
    forall c | c in All() && StartsWith(c.name, prefix)
      ensures CommandItem(c) in r
    {
      var k :| 0 <= k < |m| && m[k] == c;
      assert r[k] == CommandItem(c);
    }
  }

  /** Only `grep` starts with `gr`. */
  lemma MatchingGr()
    ensures Matching("gr") == [Registry.Grep]
  {
    var p := (c: CommandDef) => StartsWith(c.name, "gr");
    var all := All();
    forall k | 0 <= k < |all| && k != 8
      ensures !p(all[k])
    {
      FirstCharDiffers(all[k].name, "gr");
    }
    assert "grep" == "gr" + "ep";
    PrefixOf("gr", "ep");
    FilterOnly(all, p, 8);
  }

  /** The prefix `gr` offers `grep` alone. */
  lemma GrSuggestions()
    ensures CommandSuggestions("gr") == [Suggestion(CommandKind, "grep", "Search for PATTERN in files (demo)")]
  {
    MatchingGr();
    assert CommandItems([Registry.Grep]) == [CommandItem(Registry.Grep)];
  }

  /** In command mode the candidates are the matching commands. */
  lemma CommandModeSuggestions(root: Node, cwd: string, input: string)
    requires CommandMode(input, Utils.Tokens(input))
    ensures Suggestions(root, cwd, input) == CommandSuggestions(CommandPrefix(Utils.Tokens(input)))
  {
  }

  /** `GR` is read as the command prefix `gr`. */
  lemma PrefixGR(input: string)
    requires input == "GR"
    ensures Utils.Tokens(input) == ["GR"] && CommandMode(input, Utils.Tokens(input))
    ensures CommandPrefix(Utils.Tokens(input)) == "gr"
  {
    Utils.TokensOneName("GR");
    assert ToLower("GR") == "gr";
  }

  /** `GR` suggests `grep`: the prefix is lowercased. */
  lemma UpperCasePrefix(root: Node, cwd: string, input: string)
    requires input == "GR"
    ensures Suggestions(root, cwd, input) == [Suggestion(CommandKind, "grep", "Search for PATTERN in files (demo)")]
  {
    PrefixGR(input);
    CommandModeSuggestions(root, cwd, input);
    GrSuggestions();
  }

  /** The empty prefix matches every registered command. */
  lemma MatchingEmpty()
    ensures Matching("") == All()
  {
    var p := (c: CommandDef) => StartsWith(c.name, "");
    var all := All();
    forall k | 0 <= k < |all|
      ensures p(all[k])
    {
      assert all[k].name[..0] == "";
    }
    FilterAll(all, p);
  }

  /** Empty input offers the first 8 registered commands, so neither `grep` nor `man`. */
  lemma EmptyInputFirstEight(root: Node, cwd: string)
    ensures Suggestions(root, cwd, "") == CommandItems(All()[..8])
    ensures forall s :: s in Suggestions(root, cwd, "") ==> s.text != "grep" && s.text != "man"
  {
    assert Suggestions(root, cwd, "") == CommandSuggestions("") by {
      assert Utils.Tokens("") == [];
      assert ToLower("") == "";
    }
    FirstEight();
  }

  /** The first 8 registered commands as candidates, none of them `grep` or `man`. */
  lemma FirstEight()
    ensures CommandSuggestions("") == CommandItems(All()[..8])
    ensures forall s :: s in CommandItems(All()[..8]) ==> s.text != "grep" && s.text != "man"
  {
    MatchingEmpty();
    CommandItemsPrefix(All(), 8);
    FirstEightNames();
  }

  lemma CommandItemsPrefix(list: seq<CommandDef>, n: nat)
    requires n <= |list|
    ensures CommandItems(list)[..n] == CommandItems(list[..n])
  {
  }

  lemma FirstEightNames()
    ensures forall s :: s in CommandItems(All()[..8]) ==> s.text != "grep" && s.text != "man"
  {
    var r := CommandItems(All()[..8]);
    NamesInOrder();
    forall s | s in r
      ensures s.text != "grep" && s.text != "man"
    {
      var k :| 0 <= k < 8 && r[k] == s;
      assert s.text == Names()[k];
    }
  }

  // ---------------------------------------------------------------------------
  // Lemmas: completions on the initial tree

  /** `"."` from the home directory is the home directory. */
  lemma LocateHomeDot()
    ensures Locate(InitialTree, HomeDir, ".") == Some((Dir(HomeEntries), HomeDir))
  {
    HomeDirRender();
    Relative(".");
    ResolveFrom(HomeStack, ".");
    SegmentsPiece(".");
    assert Walk(HomeStack, ["."]) == HomeStack;
    InitialTreeFacts();
  }

  /** A plain name typed in the home directory is completed against the home directory. */
  lemma PathsAtHome(last: string)
    requires last != "" && '/' !in last && !StartsWith(last, "-")
    ensures PathSuggestions(InitialTree, HomeDir, last, false) == PathItems(HomeEntries, Keys(HomeEntries), last)
    ensures NamePrefix(last) == last && Until(last) == "" && !EndsWith(last, "/")
  {
    assert !EndsWith(last, "/") by {
      assert last[|last| - 1] in last;
    }
    BaseParts(last);
    LocateHomeDot();
  }

  /** The home directory's candidates, child by child. */
  lemma PathItemsHome(base: string)
    ensures PathItems(HomeEntries, Keys(HomeEntries), base)
      == ItemOf(HomeEntries, base, "readme.txt") + ItemOf(HomeEntries, base, "notes.md") + ItemOf(HomeEntries, base, "projects")
  {
    var names := Keys(HomeEntries);
    assert names == ["readme.txt", "notes.md", "projects"];
    var two, one := names[..2], names[..1];
    assert two[..1] == one && one[..0] == [];
    assert PathItems(HomeEntries, one, base) == ItemOf(HomeEntries, base, "readme.txt");
    assert PathItems(HomeEntries, two, base) == PathItems(HomeEntries, one, base) + ItemOf(HomeEntries, base, "notes.md");
    assert PathItems(HomeEntries, names, base) == PathItems(HomeEntries, two, base) + ItemOf(HomeEntries, base, "projects");
  }

  /** A file child whose name extends a slash-free base is offered under its own name. */
  lemma ItemOfFile(children: seq<Entry>, base: string, n: string, text: string)
    requires NamePrefix(base) == base && Until(base) == "" && !EndsWith(base, "/")
    requires StartsWith(n, base) && Child(children, n) == Some(File(text))
    ensures ItemOf(children, base, n) == [Suggestion(FileKind, n, "file")]
  {
    assert Label(base, n, false) == n;
  }

  /** A directory child whose name extends a slash-free base is offered with a trailing `/`. */
  lemma ItemOfDir(children: seq<Entry>, base: string, n: string, sub: seq<Entry>)
    requires NamePrefix(base) == base && Until(base) == "" && !EndsWith(base, "/")
    requires StartsWith(n, base) && Child(children, n) == Some(Dir(sub))
    ensures ItemOf(children, base, n) == [Suggestion(DirKind, n + "/", "dir")]
  {
    assert Label(base, n, true) == n + "/";
  }

  /** A child whose name does not extend a non-empty base is not offered. */
  lemma ItemOfSkipped(children: seq<Entry>, base: string, n: string)
    requires NamePrefix(base) == base && base != "" && !StartsWith(n, base)
    ensures ItemOf(children, base, n) == []
  {
  }

  /** The home directory's children against the base `re`. */
  lemma HomeItemsRe()
    ensures ItemOf(HomeEntries, "re", "readme.txt") == [Suggestion(FileKind, "readme.txt", "file")]
    ensures ItemOf(HomeEntries, "re", "notes.md") == []
    ensures ItemOf(HomeEntries, "re", "projects") == []
  {
    assert !EndsWith("re", "/") && '/' !in "re";
    BaseParts("re");
    HomeChildren();
    assert "readme.txt" == "re" + "adme.txt";
    PrefixOf("re", "adme.txt");
    ItemOfFile(HomeEntries, "re", "readme.txt", ReadmeText);
    FirstCharDiffers("notes.md", "re");
    ItemOfSkipped(HomeEntries, "re", "notes.md");
    FirstCharDiffers("projects", "re");
    ItemOfSkipped(HomeEntries, "re", "projects");
  }

  /** The home directory's children against the base `pro`. */
  lemma HomeItemsPro()
    ensures ItemOf(HomeEntries, "pro", "readme.txt") == []
    ensures ItemOf(HomeEntries, "pro", "notes.md") == []
    ensures ItemOf(HomeEntries, "pro", "projects") == [Suggestion(DirKind, "projects/", "dir")]
  {
    assert !EndsWith("pro", "/") && '/' !in "pro";
    BaseParts("pro");
    HomeChildren();
    assert "projects" == "pro" + "jects";
    PrefixOf("pro", "jects");
    ItemOfDir(HomeEntries, "pro", "projects", [Entry("web-terminal", Dir([]))]);
    assert "projects" + "/" == "projects/";
    FirstCharDiffers("readme.txt", "pro");
    ItemOfSkipped(HomeEntries, "pro", "readme.txt");
    FirstCharDiffers("notes.md", "pro");
    ItemOfSkipped(HomeEntries, "pro", "notes.md");
  }

  /** Of the home directory's children only `readme.txt` starts with `re`. */
  lemma ReadmeItems()
    ensures PathItems(HomeEntries, Keys(HomeEntries), "re") == [Suggestion(FileKind, "readme.txt", "file")]
  {
    PathItemsHome("re");
    HomeItemsRe();
  }

  /** Of the home directory's children only `projects` starts with `pro`. */
  lemma ProjectsItems()
    ensures PathItems(HomeEntries, Keys(HomeEntries), "pro") == [Suggestion(DirKind, "projects/", "dir")]
  {
    PathItemsHome("pro");
    HomeItemsPro();
  }

  /** A single candidate is its own deduplication. */
  lemma DedupOne(x: Suggestion)
    ensures Dedup([x]) == [x]
  {
    assert [x][..0] == [];
  }

  /** A registered command followed by one more word completes that word as an argument. */
  lemma TwoWordSuggestions(root: Node, cwd: string, input: string, a: string, b: string, cmd: CommandDef)
    requires Utils.Tokens(input) == [a, b] && !EndsWith(input, " ")
    requires ByName(a) == Some(cmd)
    ensures Suggestions(root, cwd, input) == ArgumentSuggestions(root, cwd, cmd, b, false)
  {
  }

  /** Two names separated by one space are two tokens, and the line does not end with a space. */
  lemma TwoNames(input: string, a: string, b: string)
    requires input == a + " " + b
    requires a != [] && forall c :: c in a ==> Utils.NameChar(c)
    requires b != [] && forall c :: c in b ==> Utils.NameChar(c)
    ensures Utils.Tokens(input) == [a, b] && !EndsWith(input, " ")
  {
    Utils.TokensTwoNames(a, b);
    assert input[|input| - 1] == b[|b| - 1];
    assert b[|b| - 1] in b;
  }

  lemma ByNameCat()
    ensures ByName("cat") == Some(Registry.Cat)
  {
    ByNameUnique("cat", 7);
  }

  lemma ByNameCd()
    ensures ByName("cd") == Some(Registry.Cd)
  {
    ByNameUnique("cd", 6);
  }

  lemma CatReTokens(input: string)
    requires input == "cat re"
    ensures Utils.Tokens(input) == ["cat", "re"] && !EndsWith(input, " ")
  {
    assert forall c :: c in "cat" ==> Utils.NameChar(c);
    assert forall c :: c in "re" ==> Utils.NameChar(c);
    assert input == "cat" + " " + "re";
    TwoNames(input, "cat", "re");
  }

  lemma CdProTokens(input: string)
    requires input == "cd pro"
    ensures Utils.Tokens(input) == ["cd", "pro"] && !EndsWith(input, " ")
  {
    assert forall c :: c in "cd" ==> Utils.NameChar(c);
    assert forall c :: c in "pro" ==> Utils.NameChar(c);
    assert input == "cd" + " " + "pro";
    TwoNames(input, "cd", "pro");
  }

  /** `cat re` completes its second word as an argument of `cat`. */
  lemma CatReDispatch(root: Node, cwd: string, input: string)
    requires input == "cat re"
    ensures Suggestions(root, cwd, input) == ArgumentSuggestions(root, cwd, Registry.Cat, "re", false)
  {
    ByNameCat();
    CatReTokens(input);
    TwoWordSuggestions(root, cwd, input, "cat", "re", Registry.Cat);
  }

  /** `cd pro` completes its second word as an argument of `cd`. */
  lemma CdProDispatch(root: Node, cwd: string, input: string)
    requires input == "cd pro"
    ensures Suggestions(root, cwd, input) == ArgumentSuggestions(root, cwd, Registry.Cd, "pro", false)
  {
    ByNameCd();
    CdProTokens(input);
    TwoWordSuggestions(root, cwd, input, "cd", "pro", Registry.Cd);
  }

  /** In the home directory, `re` has the single path candidate `readme.txt`. */
  lemma RePaths()
    ensures PathSuggestions(InitialTree, HomeDir, "re", false) == [Suggestion(FileKind, "readme.txt", "file")]
  {
    FirstCharDiffers("re", "-");
    PathsAtHome("re");
    ReadmeItems();
  }

  /** In the home directory, `pro` has the single path candidate `projects/`. */
  lemma ProPaths()
    ensures PathSuggestions(InitialTree, HomeDir, "pro", false) == [Suggestion(DirKind, "projects/", "dir")]
  {
    FirstCharDiffers("pro", "-");
    PathsAtHome("pro");
    ProjectsItems();
  }

  /** A command without options whose token has a single path candidate offers just that candidate. */
  lemma OnlyPathItem(root: Node, cwd: string, cmd: CommandDef, last: string, x: Suggestion)
    requires cmd.options == [] && PathSuggestions(root, cwd, last, false) == [x]
    ensures ArgumentSuggestions(root, cwd, cmd, last, false) == [x]
  {
    assert FlagSuggestions(cmd.options, last, false) == [];
    DedupOne(x);
  }

  /** On the initial tree, `cat re` offers exactly the file `readme.txt`. */
  lemma CatReadme()
    ensures Suggestions(InitialTree, HomeDir, "cat re") == [Suggestion(FileKind, "readme.txt", "file")]
  {
    CatReDispatch(InitialTree, HomeDir, "cat re");
    RePaths();
    OnlyPathItem(InitialTree, HomeDir, Registry.Cat, "re", Suggestion(FileKind, "readme.txt", "file"));
  }

  /** On the initial tree, `cd pro` offers exactly the directory `projects/`. */
  lemma CdProjects()
    ensures Suggestions(InitialTree, HomeDir, "cd pro") == [Suggestion(DirKind, "projects/", "dir")]
  {
    CdProDispatch(InitialTree, HomeDir, "cd pro");
    ProPaths();
    OnlyPathItem(InitialTree, HomeDir, Registry.Cd, "pro", Suggestion(DirKind, "projects/", "dir"));
  }

  // ---------------------------------------------------------------------------
  // Lemmas: inlineHelp and applySuggestionToInput

  /** Blank input asks for a command. */
  lemma InlineHelpBlank(input: string)
    requires forall k :: 0 <= k < |input| ==> IsSpace(input[k])
    ensures InlineHelp(input) == "Type a command. Try 'help' or 'ls -l'."
  {
    Utils.TokensEmptyIff(input);
  }

  /** Only the first token matters. */
  lemma InlineHelpFirstWord(a: string, b: string)
    requires Utils.Tokens(a) != [] && Utils.Tokens(b) != [] && Utils.Tokens(a)[0] == Utils.Tokens(b)[0]
    ensures InlineHelp(a) == InlineHelp(b)
  {
  }

  /** Every registered command has a usage, so the name fallback is never shown for them. */
  lemma RegisteredUsage(n: string)
    requires ByName(n).Some?
    ensures ByName(n).value.usage.Some? && ByName(n).value.usage.value != ""
  {
    UsagesPresent();
  }

  lemma UsagesPresent()
    ensures forall c :: c in Commands ==> c.usage.Some? && c.usage.value != ""
  {
    forall c | c in Commands
      ensures c.usage.Some? && c.usage.value != ""
    {
      var k :| 0 <= k < |Commands| && Commands[k] == c;
      assert |Commands[k].usage.value| >= 2;
    }
  }

  /** `grep x` shows `grep`'s usage line. */
  lemma InlineHelpGrep(input: string)
    requires input == "grep x"
    ensures InlineHelp(input) == "grep <pattern> <file>"
  {
    GrepXTokens(input);
    ByNameGrep();
  }

  lemma GrepXTokens(input: string)
    requires input == "grep x"
    ensures Utils.Tokens(input) == ["grep", "x"]
  {
    assert forall c :: c in "grep" ==> Utils.NameChar(c);
    assert forall c :: c in "x" ==> Utils.NameChar(c);
    assert input == "grep" + " " + "x";
    Utils.TokensTwoNames("grep", "x");
  }

  lemma ByNameGrep()
    ensures ByName("grep") == Some(Registry.Grep)
  {
    ByNameUnique("grep", 8);
  }

  /** A first word that names no command shows the unknown-command hint; one that does shows that command's usage. */
  lemma InlineHelpFirstToken(input: string)
    requires Utils.Tokens(input) != []
    ensures var n := Utils.Tokens(input)[0];
      (n !in Names() ==> InlineHelp(input) == "Unknown command. Type 'help'.")
      && (n in Names() ==> InlineHelp(input) == ByName(n).value.usage.value)
  {
    var n := Utils.Tokens(input)[0];
    ByNameIff(n);
    if n in Names() {
      RegisteredUsage(n);
    }
  }

  /** `grok` is not a command. */
  lemma InlineHelpUnknown(input: string)
    requires input == "grok"
    ensures InlineHelp(input) == "Unknown command. Type 'help'."
  {
    Utils.TokensOneName(input);
    NamesInOrder();
    InlineHelpFirstToken(input);
  }

  /** In command mode the choice replaces the input; after a space it is appended; else it replaces the text after the last space. */
  lemma ApplyCases(input: string, choice: string)
    ensures CommandMode(input, Utils.Tokens(input)) ==> ApplySuggestion(input, choice) == choice + " "
    ensures !CommandMode(input, Utils.Tokens(input)) && EndsWith(input, " ") ==> ApplySuggestion(input, choice) == input + choice
    ensures !CommandMode(input, Utils.Tokens(input)) && !EndsWith(input, " ") ==>
      exists k :: 0 <= k <= |input| && ApplySuggestion(input, choice) == input[..k] + choice
        && ' ' !in input[k..] && (k == 0 || input[k - 1] == ' ')
  {
    if !CommandMode(input, Utils.Tokens(input)) && !EndsWith(input, " ") {
      var k := LastIndexOf(input, ' ') + 1;
      assert forall i :: 0 <= i < |input[k..]| ==> input[k..][i] == input[k + i];
    }
  }

  /** With no space at all (a tab before the last word, say) the whole input is replaced by the choice. */
  lemma ApplyWithoutSpace(input: string, choice: string)
    requires !CommandMode(input, Utils.Tokens(input)) && ' ' !in input
    ensures ApplySuggestion(input, choice) == choice
  {
    assert !EndsWith(input, " ") by {
      if input != [] {
        assert input[|input| - 1] in input;
      }
    }
    ApplyCases(input, choice);
  }

  /** A bare word holds no space and does not end in one. */
  lemma PlainNoSpace(w: string)
    requires Utils.PlainWord(w)
    ensures ' ' !in w && !IsSpace(w[|w| - 1])
  {
    assert forall k :: 0 <= k < |w| ==> Utils.Ordinary(w[k]);
  }

  /** The last space of `head + " " + w`, for `w` without spaces, is the one after `head`. */
  lemma LastSpace(head: string, w: string)
    requires ' ' !in w
    ensures LastIndexOf(head + " " + w, ' ') == |head|
  {
    NoSpaceAfter(head, w);
    LastIndexOfAt(head + " " + w, ' ', |head|);
  }

  lemma NoSpaceAfter(head: string, w: string)
    requires ' ' !in w
    ensures (head + " " + w)[|head|] == ' '
    ensures forall k :: |head| < k < |head| + 1 + |w| ==> (head + " " + w)[k] != ' '
  {
    var s := head + " " + w;
    forall k | |head| < k < |s|
      ensures s[k] != ' '
    {
      assert s[k] == w[k - |head| - 1];
    }
  }

  /** On bare words separated by single spaces, applying a choice replaces the last word. */
  lemma ApplyReplacesLastWord(init: seq<string>, w: string, choice: string)
    requires |init| >= 1 && forall k :: 0 <= k < |init| ==> Utils.PlainWord(init[k])
    requires Utils.PlainWord(w)
    ensures ApplySuggestion(Join(init + [w], " "), choice) == Join(init + [choice], " ")
  {
    JoinSnoc(init, w, " ");
    JoinSnoc(init, choice, " ");
    var head := Join(init, " ");
    var input := head + " " + w;
    ArgumentInput(init, w);
    PlainNoSpace(w);
    LastSpace(head, w);
    assert input[..|head| + 1] == head + " ";
  }

  /** Two or more bare words, not ending with a space: neither command mode nor a new token. */
  lemma ArgumentInput(init: seq<string>, w: string)
    requires |init| >= 1 && forall k :: 0 <= k < |init| ==> Utils.PlainWord(init[k])
    requires Utils.PlainWord(w)
    ensures var input := Join(init + [w], " ");
      !CommandMode(input, Utils.Tokens(input)) && !EndsWith(input, " ")
  {
    var input := Join(init + [w], " ");
    assert |Utils.Tokens(input)| >= 2 by {
      Utils.TokensSnoc(init, w);
    }
    assert !EndsWith(input, " ") by {
      JoinSnoc(init, w, " ");
      PlainNoSpace(w);
      assert input[|input| - 1] == w[|w| - 1];
    }
  }

  /** Tokenizing the result gives the earlier words and the choice, for a bare-word choice. */
  lemma ApplyReplacesLastToken(init: seq<string>, w: string, choice: string)
    requires |init| >= 1 && forall k :: 0 <= k < |init| ==> Utils.PlainWord(init[k])
    requires Utils.PlainWord(w) && Utils.PlainWord(choice)
    ensures Utils.Tokens(ApplySuggestion(Join(init + [w], " "), choice)) == init + [choice]
  {
    ApplyReplacesLastWord(init, w, choice);
    Utils.TokensSnoc(init, choice);
  }
}

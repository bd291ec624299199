# Web terminal shell — a Dafny model

This project models the in-browser shell of the NeXterminal web terminal: the
command-line tokenizer, the in-memory filesystem (its fixed initial tree,
path resolution and node lookup), the registry of ten built-in commands with
their handlers and help/manual formatters, the dispatch of one typed line
into an output and an exit status, and the suggestion engine behind the
prompt (completion lists, the one-line usage hint, and the insertion of a
chosen suggestion).

Layout, one module per file:

- `wrappers.dfy` — `Option`.
- `strings.dfy` — the JavaScript string operations the source relies on
  (`split`, `join`, `padEnd`, `padStart`, `trim`, `lastIndexOf`,
  `toLowerCase`, `Number.toString`) with their properties.
- `utils.dfy` — `clamp` and `tokenize` (src/utils.ts; src/Shell/service.ts
  holds an identical copy). `Tokens` is the specification on string suffixes;
  `Tokenize` keeps the source's index loop and is proved to compute it.
- `filesystem.dfy` — `makeFS`, `resolvePath`, `getNode`
  (src/FileSystem/Controller.ts). Directories are ordered sequences of named
  entries, as `Object.keys` lists them. `VirtualFS` is a class whose `cwd`
  the `cd` handler assigns.
- `registry.dfy` — the command definitions and `byName`/`names`.
- `helper.dfy` — `fmtArgs`, `formatHelp`, `formatMan`.
- `commands.dfy` — the handlers of `help`, `clear`, `echo`, `date`, `pwd`,
  `ls`, `cd`, `cat`, `grep`, `man`.
- `shell.dfy` — `runCommand`: lookup, handler call, error capture, exit
  status, and the history entry it records.
- `suggest.dfy` — `buildSuggestions`, `inlineHelp`,
  `applySuggestionToInput` (src/Shell/service.ts; src/Shell/prompt.ts holds
  identical copies of the first two).

The current time that `date` prints and the regular-expression constructor
that `grep` calls are outside the core; they enter as the `Env` parameter
(`now`, and `compile`, which yields either a line test or a thrown error).

In the code, `cat` of a missing file returns the message
`cat: <file>: No such file` from its handler without throwing, so the exit
status is 0; only an unknown command and a thrown error set exit status 1
(src/Shell/service.ts:71-82). The model follows the code, and
`Shell.CatMissingExits0` states it.

## Model

| member | source | states |
|---|---|---|
| Utils.Clamp | src/utils.ts:1 | the result lies between `min` and `max` when they are ordered, is `n` when `n` is already inside, and is `min` when the bounds are crossed (`Math.max` is applied last) |
| Utils.Tokenize | src/utils.ts:5-29 | the scanning loop returns exactly the token list `Tokens` defines |
| Utils.ScanToken | src/utils.ts:11-26 | reading one token strictly advances the index, and the tokens of the scanned suffix are that token followed by the tokens of the rest |
| Utils.ScanSpaces | src/utils.ts:9 | the whitespace loop stops where `SkipSpace` says, the first non-whitespace character or the end |
| Utils.ScanQuoted | src/utils.ts:12-20 | the quoted loop collects the quoted body (escapes resolved) and stops just after the closing quote, or at the end when there is none |
| Utils.ScanWord | src/utils.ts:22-26 | the bare-word loop collects the word (escapes resolved) and stops at whitespace or the end |
| Utils.SkipSpaceIsTrimStart | src/utils.ts:9 | skipping whitespace drops exactly the leading whitespace, like `trimStart` |
| Utils.WordStops | src/utils.ts:22-26 | a bare word ends only at whitespace or the end of input, and is non-empty when it starts with a non-space |
| Utils.TokensEmptyIff | src/utils.ts:8-10 | a line has no tokens if and only if every character is whitespace |
| Utils.QuotedEscape | src/utils.ts:15 | inside quotes a backslash takes the next character literally: a fully escaped word followed by the closing quote reads back as the word |
| Utils.WordEscape | src/utils.ts:23 | outside quotes a fully escaped word followed by whitespace or the end reads back as the word |
| Utils.TokensRenderLine | src/utils.ts:5-29 | round trip: any list of words, each written as a double-quoted escaped argument and separated by spaces, tokenizes back to the same list |
| Utils.EscapedWordToken | src/utils.ts:22-26 | a fully escaped non-empty word is a single token equal to the word, escaped spaces included |
| Utils.TokensJoinPlain | src/utils.ts:22-26 | plain words (no whitespace, backslash or leading quote) joined by single spaces tokenize back to the same list |
| Utils.TokensJoinPlainSpaced | src/utils.ts:22-26 | the same holds when any run of whitespace follows the joined words |
| Utils.ClosingQuoteEndsToken | src/utils.ts:16 | the closing quote ends the token even when a non-space character follows it, which starts the next token |
| Utils.UnterminatedQuote | src/utils.ts:14-19 | an unterminated quote makes the rest of the line one token |
| Utils.TrailingBackslash | src/utils.ts:15-24 | a backslash that is the last character is kept literally, inside or outside quotes |
| Utils.QuoteFreeTokensNonEmpty | src/utils.ts:22-26 | without quote characters no token is empty |
| Utils.TokensExamples | src/utils.ts:5-29 | `echo "a b" c\ d` gives `echo`, `a b`, `c d`; `"a"b` gives `a`, `b`; `""` gives one empty token |
| FileSystem.Child | src/FileSystem/Controller.ts:48-49 | a child lookup finds nothing exactly when no entry has the name, and otherwise returns the node of an entry with that name |
| FileSystem.ChildOfEntry | src/FileSystem/Controller.ts:49 | with distinct names, looking up an entry's name returns that entry's node |
| FileSystem.Segments | src/FileSystem/Controller.ts:33 | `split("/").filter(Boolean)`: the segments, none of them empty |
| FileSystem.VirtualFS.constructor | src/FileSystem/Controller.ts:4-28 | a new filesystem starts in `/home/dev` over the initial tree, and is valid |
| FileSystem.InitialTreeFacts | src/FileSystem/Controller.ts:4-28 | the initial tree has unique names in every directory, and `/home/dev` is a canonical path to a directory holding the three home entries |
| FileSystem.InitialContents | src/FileSystem/Controller.ts:17-19 | `readme.txt` and `notes.md` hold their texts and `projects/web-terminal` is an empty directory |
| FileSystem.ResolvePath | src/FileSystem/Controller.ts:30-41 | the stack loop returns `Resolve(cwd, path)` |
| FileSystem.ResolveCanonical | src/FileSystem/Controller.ts:30-41 | every resolved path starts with `/`, is canonical (no empty, `.` or `..` segment), and its segments are the final stack |
| FileSystem.ResolveCanonicalPath | src/FileSystem/Controller.ts:30-41 | a canonical path resolves to itself from any working directory |
| FileSystem.ResolveIdempotent | src/FileSystem/Controller.ts:30-41 | resolving an already resolved path, from any working directory, changes nothing |
| FileSystem.ResolveAbsolute | src/FileSystem/Controller.ts:32 | an absolute path resolves the same from every working directory |
| FileSystem.ResolveRelative | src/FileSystem/Controller.ts:32-40 | a relative path is walked on top of the working directory's own walked segments |
| FileSystem.ResolveOneSlash | src/FileSystem/Controller.ts:32 | a working directory with or without a trailing slash gives the same result |
| FileSystem.ResolveFrom | src/FileSystem/Controller.ts:32-40 | from a canonical directory, a relative path resolves to that directory's stack walked by the path's segments |
| FileSystem.ResolveEmpty | src/FileSystem/Controller.ts:31 | an empty path resolves like `.`, to the normalised working directory, and to the working directory itself when it is canonical |
| FileSystem.ResolveParent | src/FileSystem/Controller.ts:37 | `..` drops the last segment and stays at `/` at the root |
| FileSystem.WalkParents | src/FileSystem/Controller.ts:37 | n `..` segments pop n segments, never past the root |
| FileSystem.WalkPushes | src/FileSystem/Controller.ts:38 | ordinary segments are pushed in order |
| FileSystem.WalkClean | src/FileSystem/Controller.ts:35-39 | the stack never holds an empty, `.` or `..` segment |
| FileSystem.WalkConcat | src/FileSystem/Controller.ts:35-39 | walking two segment lists one after the other is walking their concatenation |
| FileSystem.SegmentsRender | src/FileSystem/Controller.ts:40 | round trip: splitting a rendered stack of non-empty segments gives the stack back |
| FileSystem.ResolveUpFromHome | src/FileSystem/Controller.ts:37 | `../../..` from `/home/dev` gives `/` |
| FileSystem.GetNode | src/FileSystem/Controller.ts:43-52 | the descent loop returns `Locate(root, cwd, path)` |
| FileSystem.LookupStep | src/FileSystem/Controller.ts:47-50 | one loop step: descend into the named child of a directory, fail otherwise |
| FileSystem.LookupSnoc | src/FileSystem/Controller.ts:47-50 | walking one more segment descends into that child exactly when the node so far is a directory having it |
| FileSystem.LookupSomeIff | src/FileSystem/Controller.ts:47-50 | a walk succeeds if and only if every step can descend into an existing child of a directory |
| FileSystem.LocateNoneIff | src/FileSystem/Controller.ts:43-52 | `getNode` gives null if and only if some segment of the resolved path is missing or lies under a file |
| FileSystem.LocateSome | src/FileSystem/Controller.ts:44 | a found node comes with `full` equal to `resolvePath`, and is the node that path reaches from the root |
| FileSystem.LocateRoot | src/FileSystem/Controller.ts:43-52 | `/` finds the root from every working directory |
| Registry.Find | src/Shell/helper.ts:32 | `find` gives nothing exactly when no definition has the name, and otherwise a listed definition with that name |
| Registry.FindFirst | src/Shell/helper.ts:32 | `find` returns the first definition with the name |
| Registry.NamesInOrder | src/Shell/commands.ts:6-119 | the names are help, clear, echo, date, pwd, ls, cd, cat, grep, man, in that order |
| Registry.NamesUnique | src/Shell/commands.ts:6-119 | no two commands share a name |
| Registry.ByNameIff | src/Shell/helper.ts:32 | `byName` finds a definition if and only if the name is registered, and the one found has that name |
| Registry.ByNameUnique | src/Shell/helper.ts:32 | the k-th registered definition is the one `byName` finds for its name |
| Registry.ByNameNonEmpty | src/Shell/helper.ts:32 | the empty name finds nothing |
| Registry.HandlerOf | src/Shell/commands.ts:6-119 | each registered name dispatches to its own handler and to no other |
| Helper.ReadFmtArg | src/Shell/helper.ts:4-6 | reading a rendered argument back gives its form: variadic wins over optional, then optional, else required |
| Helper.FmtArgsWords | src/Shell/helper.ts:4-6 | the synopsis cut at spaces gives each argument's rendering, in order |
| Helper.FmtArgsEmpty | src/Shell/helper.ts:4-6 | the synopsis is empty if and only if there are no arguments |
| Helper.OptionLine | src/Shell/helper.ts:9 | an option line is indented by two spaces |
| Helper.OptionLineColumns | src/Shell/helper.ts:9 | an option line is two spaces, the flag, blanks up to column 9 and the description; a flag longer than six characters is followed by a single space instead |
| Helper.FormatOptions | src/Shell/helper.ts:9 | the options block is empty if and only if there are no options |
| Helper.FormatOptionsLines | src/Shell/helper.ts:9 | the options block holds one line per option, in order |
| Helper.HelpOptionsIff | src/Shell/helper.ts:14 | the `Options:` block appears if and only if the command has options |
| Helper.FormatHelpTrimmed | src/Shell/helper.ts:15 | a help page never starts or ends with whitespace |
| Helper.FormatHelpUntrimmed | src/Shell/helper.ts:8-16 | a page whose ends are not blank is not changed by trimming and starts with the name line and the usage line |
| Helper.HelpPageEnd | src/Shell/helper.ts:11-15 | before trimming, the page ends with the last character of the usage, or of the last option's description when there are options |
| Helper.TidyHelpHead | src/Shell/helper.ts:11-15 | when the name starts and the usage and last option description end with visible characters, trimming changes nothing and the page opens with the name line and the usage line |
| Helper.RegisteredHelpHead | src/Shell/helper.ts:8-16 | for every registered command, `formatHelp` is the untrimmed page and opens with `name — description`, a newline and `Usage: ` with the usage |
| Helper.HelpPageHead | src/Shell/helper.ts:12-13 | the page starts with `name — description`, a newline, and `Usage: ` with the usage |
| Helper.UsageFallback | src/Shell/helper.ts:13 | with no usage, the usage is the name alone, or the name, a space and the synopsis when there are arguments |
| Helper.ManSections | src/Shell/helper.ts:21-25 | the manual has NAME, SYNOPSIS, OPTIONS only when there are options, and DESCRIPTION last |
| Helper.BuildMan | src/Shell/helper.ts:18-27 | pushing the sections one by one and joining them gives `FormatMan` |
| Helper.FormatManSections | src/Shell/helper.ts:18-27 | the manual starts with the NAME and SYNOPSIS sections separated by a blank line and ends with the DESCRIPTION section |
| Helper.JoinLast | src/Shell/helper.ts:26 | a join of two or more sections ends with the separator and the last section |
| Commands.FirstWhere | src/Shell/commands.ts:50 | `find` gives nothing exactly when no element passes, and otherwise an element that passes |
| Commands.FirstWhereAt | src/Shell/commands.ts:50 | `find` returns the first element that passes |
| Commands.HelpListing | src/Shell/commands.ts:14-19 | with no argument, `help` prints the heading, the listing and the closing hint |
| Commands.HelpLinesSplit | src/Shell/commands.ts:18 | the listing splits back into one line per command |
| Commands.HelpLineColumns | src/Shell/commands.ts:18 | in a listing line the name starts at column 2 and the description at column 15 |
| Commands.UnknownHelp | src/Shell/commands.ts:14-16 | `help x` for an unregistered `x` prints `No such command: x` |
| Commands.KnownHelp | src/Shell/commands.ts:14-16 | `help x` for a registered `x` prints its help page |
| Commands.UnknownMan | src/Shell/commands.ts:115-116 | `man x` for an unregistered `x` prints `No manual entry for x` |
| Commands.KnownMan | src/Shell/commands.ts:115-116 | `man x` for a registered `x` prints its manual page |
| Commands.EchoWordsFacts | src/Shell/commands.ts:34-38 | echo prints exactly the arguments other than `echo` and `-n`, joined by spaces, with a newline unless `-n` was given |
| Commands.EchoRoundTrip | src/Shell/commands.ts:34-38 | with or without `-n`, when the printed words are plain, tokenizing the output gives the printed words back |
| Commands.LsOutcomes | src/Shell/commands.ts:48-65 | `ls` gives the not-found message, the path of a file, the names joined by two spaces, or one long line per entry with `-l` |
| Commands.LsTargetFirst | src/Shell/commands.ts:50 | the target is the first argument other than `ls` and `-l` |
| Commands.LongLineLayout | src/Shell/commands.ts:61-63 | a long line is the type letter, the mode and owner columns, the size right-aligned in five columns, two spaces and the name |
| Commands.LongLineSize | src/Shell/commands.ts:62-63 | the size column, trimmed, reads back as the file's length (0 for a directory) |
| Commands.Cd | src/Shell/commands.ts:72-77 | the handler's output and the new `fs.cwd` are those of `CdResult`, and validity is kept |
| Commands.CdSilentIff | src/Shell/commands.ts:74-76 | `cd` prints nothing if and only if the target is a directory, and then moves to its resolved path |
| Commands.CdLandsOnDir | src/Shell/commands.ts:72-77 | after `cd` the working directory is unchanged or a canonical path to a directory |
| Commands.CdThenPwd | src/Shell/commands.ts:72-77 | after a successful `cd`, `pwd` prints the resolved target |
| Commands.CdHome | src/Shell/commands.ts:73 | `cd` without an argument (or with an empty one) goes to `/home/dev` |
| Commands.CatIff | src/Shell/commands.ts:84-89 | `cat` prints the file's content if and only if the path names a file, and otherwise `cat: <file>: No such file` |
| Commands.CatCanonical | src/Shell/commands.ts:84-89 | `cat` on a canonical absolute path prints the content of the file that path names in the tree, from any working directory, and `cat: <path>: No such file` otherwise |
| Commands.CatNoArgument | src/Shell/commands.ts:85-87 | `cat` without an argument prints `cat: undefined: No such file` |
| Commands.LocateCwd | src/FileSystem/Controller.ts:31 | an empty path finds the working directory itself |
| Commands.MatchingLinesFacts | src/Shell/commands.ts:105 | grep keeps exactly the lines that pass the test, and its output splits back into them |
| Commands.MatchingLinesAll | src/Shell/commands.ts:105 | when every line passes, the output is the content unchanged |
| Commands.GrepNoFile | src/Shell/commands.ts:102-103 | a missing file or a directory gives `grep: <file>: No such file` |
| Commands.GrepThrows | src/Shell/commands.ts:97-105 | grep throws if and only if the file is found and the pattern does not compile |
| Shell.Screen.ClearScreen | src/Shell/commands.ts:26 | each call of `clearScreen` counts one clear |
| Shell.Run | src/Shell/commands.ts:6-119 | of the ten handlers only `grep` can throw |
| Shell.Invoke | src/Shell/service.ts:77 | the handler's outcome, the new `fs.cwd` and the number of screen clears are those `Handle` gives, and validity is kept |
| Shell.RunCommand | src/Shell/service.ts:60-83 | a blank line records nothing and changes nothing; any other line records the line, the output and the exit status of `Execute`, and leaves its working directory and clears |
| Shell.ExitIff | src/Shell/service.ts:68-83 | the exit status is 0 or 1, and 1 if and only if the command is unknown or its handler threw |
| Shell.UnknownCommand | src/Shell/service.ts:71-73 | an unknown command prints `<name>: command not found`, exits 1 and changes nothing |
| Shell.KnownCommand | src/Shell/service.ts:74-82 | a returned value is the output with exit 0; a thrown error prints `Error: ` and its text with exit 1 |
| Shell.DispatchEffects | src/Shell/service.ts:61-83 | only `cd` changes the working directory, only `clear` clears the screen (once), and only `grep` among the built-ins can exit 1 |
| Shell.DispatchCwd | src/Shell/service.ts:77 | the working directory afterwards is the one `cd` chose, or the old one for any other command |
| Shell.DispatchKeepsDir | src/Shell/commands.ts:72-77 | invariant: if the working directory names a directory, it still does after any line |
| Shell.DispatchCat | src/Shell/service.ts:74-78 | `cat` always exits 0 with the handler's text |
| Shell.DispatchLs | src/Shell/service.ts:74-78 | `ls` always exits 0 with the handler's text |
| Shell.DispatchPwd | src/Shell/service.ts:74-78 | `pwd` prints the working directory and exits 0 |
| Shell.DispatchCd | src/Shell/service.ts:74-78 | `cd` exits 0, prints the handler's message and moves to the directory it chose |
| Shell.CatMissingExits0 | src/Shell/commands.ts:87 | `cat` of a missing path prints `cat: <path>: No such file` and exits 0 |
| Shell.CatMissingExample | src/Shell/service.ts:61-83 | `cat missing.txt` in a fresh shell prints the message with exit status 0 |
| Shell.BogusExample | src/Shell/service.ts:71-73 | `bogus` in a fresh shell prints `bogus: command not found` with exit status 1 |
| Shell.CdThenPwdExample | src/Shell/commands.ts:72-77 | `cd projects/web-terminal` in a fresh shell succeeds silently, and `pwd` then prints `/home/dev/projects/web-terminal` |
| Shell.PwdExample | src/Shell/commands.ts:41 | `pwd` prints the working directory |
| Shell.ProjectFound | src/FileSystem/Controller.ts:43-52 | `projects/web-terminal` from `/home/dev` is an empty directory at `/home/dev/projects/web-terminal` |
| Shell.MissingFile | src/FileSystem/Controller.ts:43-52 | `missing.txt` from `/home/dev` is not found |
| Shell.HomeLocate | src/FileSystem/Controller.ts:30-52 | a relative path below `/home/dev` is found as the home entries' walk finds it, at `/home/dev/` plus the path |
| Shell.ExecuteLine | src/Shell/service.ts:61-62 | a line with tokens dispatches those tokens |
| Shell.LsLongExample | src/Shell/commands.ts:59-64 | `ls -l` in a fresh shell exits 0 and starts with `-rwxr-xr-x  dev  dev     50  readme.txt` |
| Suggest.CollectPaths | src/Shell/service.ts:35-41 | the loop over the directory's names collects `PathItems` |
| Suggest.Unique | src/Shell/service.ts:44-48 | the loop with the `seen` set returns `Dedup` of its input |
| Suggest.PathCandidates | src/Shell/service.ts:26-43 | the path branch returns `PathSuggestions` |
| Suggest.BuildSuggestions | src/Shell/service.ts:7-50 | the procedure returns `Suggestions(root, cwd, input)` |
| Suggest.KeyInjective | src/Shell/service.ts:47 | two suggestions share a key if and only if they share kind and label |
| Suggest.DedupKeys | src/Shell/service.ts:44-48 | deduplication keeps every key |
| Suggest.DedupMembers | src/Shell/service.ts:44-48 | deduplication invents nothing |
| Suggest.DedupDistinct | src/Shell/service.ts:44-48 | no two results share a key |
| Suggest.DedupFirst | src/Shell/service.ts:44-48 | the first item with each key is the one kept |
| Suggest.DedupGrows | src/Shell/service.ts:44-48 | the result for a prefix of the input is a prefix of the result |
| Suggest.DedupNoRepeat | src/Shell/service.ts:44-48 | input without repeated keys comes out unchanged |
| Suggest.DedupDisjoint | src/Shell/service.ts:46 | lists with disjoint keys deduplicate separately |
| Suggest.FlagSuggestionsFacts | src/Shell/service.ts:21-24 | a flag is offered if and only if it is one of the command's flags and the user is starting a new token or the flag extends the last token |
| Suggest.PathItemsSound | src/Shell/service.ts:35-40 | every path suggestion comes from a child whose name extends the typed prefix |
| Suggest.PathItemsComplete | src/Shell/service.ts:35-40 | every child whose name extends the typed prefix is suggested |
| Suggest.PathSuggestionsKinds | src/Shell/service.ts:39 | path suggestions are files or directories |
| Suggest.FlagsThenPaths | src/Shell/service.ts:46 | flags and paths never collide, so deduplication keeps flags first and paths after |
| Suggest.ArgumentModeOrder | src/Shell/service.ts:16-49 | after a registered command, the result is the first ten of the deduplicated flags followed by the deduplicated paths |
| Suggest.UnknownCommandNothing | src/Shell/service.ts:16-17 | after an unknown command nothing is suggested |
| Suggest.NoPathAfterFlag | src/Shell/service.ts:26-28 | no path is suggested while a flag is being typed |
| Suggest.BaseParts | src/Shell/service.ts:30-34 | a base without a trailing slash is its directory part, a slash and the name prefix |
| Suggest.LabelExtendsToken | src/Shell/service.ts:38 | a path label extends the typed token (except for the leading-slash case) |
| Suggest.NestedToken | src/Shell/service.ts:30-34 | for `dir/name` the directory searched is `dir` and the prefix is `name` |
| Suggest.TrailingSpaceQuirk | src/Shell/service.ts:29-34 | after a trailing space the base is `.`, so the name prefix is `.` |
| Suggest.TrailingSpaceDotNames | src/Shell/service.ts:29-38 | after a trailing space only names starting with `.` are offered |
| Suggest.LeadingSlashQuirk | src/Shell/service.ts:30-38 | `/x` completes against the working directory and drops the slash from the label |
| Suggest.MatchingMembers | src/Shell/service.ts:12 | the matching commands are exactly the registered ones whose name starts with the prefix |
| Suggest.CommandSuggestionsSound | src/Shell/service.ts:11-14 | every command suggestion is a registered command whose name starts with the prefix |
| Suggest.CommandSuggestionsComplete | src/Shell/service.ts:11-14 | when at most eight match, every matching command is suggested |
| Suggest.CommandModeSuggestions | src/Shell/service.ts:9-14 | while the first word is typed, the command suggestions for its lowercased prefix are given |
| Suggest.UpperCasePrefix | src/Shell/prompt.ts:10-14 | `GR` suggests `grep` |
| Suggest.EmptyInputFirstEight | src/Shell/prompt.ts:10-14 | an empty line suggests the first eight commands, so not `grep` or `man` |
| Suggest.CatReadme | src/Shell/prompt.ts:29-39 | `cat re` in `/home/dev` suggests `readme.txt` |
| Suggest.CdProjects | src/Shell/prompt.ts:29-39 | `cd pro` in `/home/dev` suggests `projects/` |
| Suggest.InlineHelpBlank | src/Shell/service.ts:53-54 | a blank line gets the default hint |
| Suggest.InlineHelpFirstToken | src/Shell/service.ts:55-57 | an unknown first word gets the unknown-command hint, a known one its usage |
| Suggest.InlineHelpFirstWord | src/Shell/service.ts:53-57 | the hint depends only on the first token |
| Suggest.RegisteredUsage | src/Shell/service.ts:57 | every registered command has a non-empty usage, so the name fallback is never shown |
| Suggest.InlineHelpGrep | src/Shell/prompt.ts:55-57 | `grep x` hints `grep <pattern> <file>` |
| Suggest.InlineHelpUnknown | src/Shell/prompt.ts:55-56 | `grok` hints `Unknown command. Type 'help'.` |
| Suggest.ApplyCases | src/Shell/service.ts:140-148 | the label plus a space replaces the line while the first word is typed; after a trailing space it is appended; otherwise it replaces what follows the last space |
| Suggest.ApplyWithoutSpace | src/Shell/service.ts:146-147 | with no space in the line (`lastIndexOf` is -1), the label replaces the whole line |
| Suggest.ApplyReplacesLastWord | src/Shell/service.ts:146-147 | for plain words, the last word is replaced by the label |
| Suggest.ApplyReplacesLastToken | src/Shell/service.ts:140-148 | round trip: tokenizing the result gives the earlier tokens followed by the label |
| Strings.Split | src/FileSystem/Controller.ts:33 | `split` gives at least one piece, none holding the separator |
| Strings.JoinSplit | src/Shell/commands.ts:105 | round trip: joining the pieces of a split with the separator gives the string back |
| Strings.SplitJoin | src/Shell/commands.ts:105 | round trip: splitting a join of separator-free pieces gives the pieces back |
| Strings.PadEnd | src/Shell/commands.ts:18 | `padEnd`: the string followed by spaces up to the width |
| Strings.PadStart | src/Shell/commands.ts:63 | `padStart`: spaces up to the width followed by the string |
| Strings.Trim | src/Shell/helper.ts:15 | `trim`: the result is a slice `s[i..j]` with only whitespace outside it, has no whitespace at either end, and a string without whitespace at its ends is unchanged |
| Strings.TrimStrips | src/Shell/helper.ts:15 | removing a whitespace prefix and then a whitespace suffix leaves a middle slice with only whitespace outside it |
| Strings.LastIndexOf | src/Shell/service.ts:146 | `lastIndexOf`: -1 or a position holding the character with none after it |
| Strings.NatToString | src/Shell/commands.ts:63 | `toString` of a size: decimal digits, with a leading zero only for zero |
| Strings.NatToStringValue | src/Shell/commands.ts:63 | round trip: the digits read back as the number |

## Left out

- The React user interface (src/App.tsx and src/ReactComponents/), history state updates, timestamps, the duration and paint measurements, `focusInputSoon`, `fmtDuration`, `fmtMs` and `isMac`: presentation and timing, not shell behaviour.
- `date`: `nowStr()` reads the clock; its text is the `Env.now` parameter.
- `grep`'s `new RegExp`: regular-expression syntax and matching are not modelled; `Env.compile` gives either a line test or a thrown error, and `-i` is passed to it.
- Asynchronous handlers: `runCommand` awaits each handler's result, but every built-in handler is synchronous, so the model calls them directly.
- Exit status 130 is recorded only by the interface's Ctrl+C cancel shortcut (src/App.tsx:119-127), which appends the cancelled line to the history; that shortcut is left out with the React interface, so `runCommand` and the model produce 0 and 1 only.
- A missing argument (`undefined`) is `None`; where the source concatenates it into a message it prints `undefined`, and where it is passed as a path it behaves like the empty path (`inputPath || "."`).
- JavaScript object-key order rules for integer-like names: directories are ordered lists of entries, which matches `Object.keys` for every name in the initial tree.
- `toLowerCase` is modelled for ASCII letters only; all command names are lowercase ASCII.
- The `\s` class is the ECMAScript whitespace and line-terminator set, written out.
- `Shell.ErrorText`: `String(e)` for an error with an empty message is modelled as the error's name, which is what `Error.prototype.toString` gives; errors that are not `Error` objects are not modelled.
- Commands.LongLineLayout: stated for sizes below 100000 only, where the padded size column keeps its width of five; larger sizes widen the line.
- Commands.LongLineSize: stated for sizes below 100000 only, for the same reason.
- FileSystem.Child: lookups see only a directory's own entries. In the source a directory's `children` is a plain object, so `node.children[p]` (src/FileSystem/Controller.ts:48) also finds inherited names such as `constructor`, `toString` or `__proto__`. `ls constructor` then reaches `Object.keys(undefined)` (src/Shell/commands.ts:56-57), which throws a TypeError that `runCommand` records as `Error: <message>` with exit 1; the model, through Shell.Run and Shell.DispatchEffects, answers `ls: cannot access 'constructor': No such file or directory` with exit 0. `cat`, `cd` and `grep` on such a name print their usual not-found messages in both, since the inherited value is neither a file nor a directory. So the claim that only `grep` can throw holds for the model, not for the source on these names.
- Shell.Run: "only `grep` can throw" holds for the model only; in the source `ls` (with or without `-l`) on an inherited name such as `constructor` throws too, as described for FileSystem.Child.
- Shell.DispatchEffects: "only `grep` can exit 1" holds for the model only; in the source `ls` on an inherited name exits 1 with `Error: <message>`, as described for FileSystem.Child.
- src/Shell/prompt.ts duplicates `buildSuggestions` and `inlineHelp` from src/Shell/service.ts; both copies are modelled by the same functions.

/**
 * The in-memory filesystem of src/FileSystem: a fixed tree of files and
 * directories and a mutable working directory.
 *
 * `Resolve` specifies `resolvePath`: the path is made absolute against the
 * working directory, cut at `/`, and its segments are folded onto a stack
 * (`Walk`) where `.` is skipped and `..` pops.  `Lookup` specifies the walk
 * down the tree done by `getNode`.  The methods `ResolvePath` and `GetNode`
 * keep the source's loops and are proved to compute those functions.
 */
module FileSystem {
  import opened Wrappers
  import opened Strings

  /** `FSNode`: a file with its text, or a directory with its children in insertion order. */
  datatype Node = File(content: string) | Dir(children: seq<Entry>)

  /** One `name: node` property of a directory's `children` record. */
  datatype Entry = Entry(name: string, node: Node)

  /** `children[name]`: the child with that name, if there is one. */
  function Child(children: seq<Entry>, name: string): (r: Option<Node>)
    ensures r.None? <==> forall k :: 0 <= k < |children| ==> children[k].name != name
    ensures r.Some? ==> Entry(name, r.value) in children
    decreases |children|
  {
    if children == [] then None
    else if children[0].name == name then Some(children[0].node)
    else Child(children[1..], name)
  }

  /** In a record with distinct names, each property is found under its own name. */
  lemma {:induction false} ChildOfEntry(children: seq<Entry>, k: nat)
    requires UniqueNames(children) && k < |children|
    ensures Child(children, children[k].name) == Some(children[k].node)
    decreases k
  {
    if k > 0 {
      assert UniqueNames(children[1..]) by {
        forall i, j | 0 <= i < j < |children| - 1
          ensures children[1..][i].name != children[1..][j].name
        {
          assert children[1..][i] == children[i + 1] && children[1..][j] == children[j + 1];
        }
      }
      assert children[1..][k - 1] == children[k];
      ChildOfEntry(children[1..], k - 1);
    }
  }

  /** `Object.keys(children)`. */
  function Keys(children: seq<Entry>): (r: seq<string>)
    ensures |r| == |children| && forall k :: 0 <= k < |r| ==> r[k] == children[k].name
  {
    seq(|children|, k requires 0 <= k < |children| => children[k].name)
  }

  /** The properties of a record have distinct names. */
  predicate UniqueNames(children: seq<Entry>) {
    forall i, j :: 0 <= i < j < |children| ==> children[i].name != children[j].name
  }

  /** Every directory of the tree has distinct child names. */
  predicate WellFormed(n: Node)
    decreases n
  {
    n.Dir? ==> UniqueNames(n.children) && forall k :: 0 <= k < |n.children| ==> WellFormed(n.children[k].node)
  }

  // ---------------------------------------------------------------------------
  // Paths

  /** `path.split("/").filter(Boolean)`. */
  function Segments(path: string): (r: seq<string>)
    ensures forall k :: 0 <= k < |r| ==> Piece(r[k])
  {
    var r := NonEmpty(Split(path, '/'));
    NonEmptyMembers(Split(path, '/'));
    assert forall k :: 0 <= k < |r| ==> r[k] in Split(path, '/');
    r
  }

  /** A segment as `split` and `filter(Boolean)` leave it: non-empty and free of `/`. */
  predicate Piece(w: string) {
    w != "" && '/' !in w
  }

  /** A normalized stack: no empty, `.` or `..` segment and no `/` inside one. */
  predicate Clean(st: seq<string>) {
    forall k :: 0 <= k < |st| ==> Piece(st[k]) && st[k] != "." && st[k] != ".."
  }

  /** One round of the loop of `resolvePath` on the stack above its bottom `""`. */
  function Step(st: seq<string>, p: string): seq<string> {
    if p == "." then st
    else if p == ".." then (if |st| > 0 then st[..|st| - 1] else st)
    else st + [p]
  }

  /** The stack after the loop has taken every segment of `parts` in order. */
  function Walk(st: seq<string>, parts: seq<string>): seq<string>
    decreases |parts|
  {
    if parts == [] then st else Step(Walk(st, parts[..|parts| - 1]), parts[|parts| - 1])
  }

  /** `"/" + stack.filter(Boolean).join("/")`, the stack's bottom `""` left implicit. */
  function Render(st: seq<string>): string {
    "/" + Join(st, "/")
  }

  /** The path of a stack extended by a relative path is the stack's path, a slash and that path. */
  lemma RenderBelow(st: seq<string>, rel: seq<string>, p: string)
    requires |st| >= 1 && |rel| >= 1 && Join(rel, "/") == p
    ensures Render(st + rel) == Render(st) + "/" + p
  {
    JoinConcat(st, rel, "/");
    var a := Join(st, "/");
    assert Join(st + rel, "/") == a + "/" + p;
    assert "/" + (a + "/" + p) == ("/" + a) + "/" + p;
  }

  /** The path `resolvePath` normalizes: `inputPath || "."`, prefixed with cwd unless absolute. */
  function Absolute(cwd: string, path: string): string {
    var p := if path == "" then "." else path;
    if StartsWith(p, "/") then p else cwd + (if EndsWith(cwd, "/") then "" else "/") + p
  }

  /** The normalized stack of `path` read from `cwd`. */
  function ResolvedStack(cwd: string, path: string): seq<string> {
    Walk([], Segments(Absolute(cwd, path)))
  }

  /** `resolvePath(fs, path)` for `fs.cwd == cwd`; the empty path stands for a missing one too. */
  function Resolve(cwd: string, path: string): string {
    Render(ResolvedStack(cwd, path))
  }

  /** A path in the form `resolvePath` returns. */
  predicate Canonical(p: string) {
    Clean(Segments(p)) && p == Render(Segments(p))
  }

  /** The loop of `resolvePath`, with the source's stack whose bottom is `""`. */
  method ResolvePath(fs: VirtualFS, inputPath: string) returns (r: string)
    ensures r == Resolve(fs.cwd, inputPath)
  {
    var path := if inputPath == "" then "." else inputPath;
    if !StartsWith(path, "/") {
      path := fs.cwd + (if EndsWith(fs.cwd, "/") then "" else "/") + path;
    }
    var parts := Segments(path);
    var stack := [""];
    for k := 0 to |parts|
      invariant stack == [""] + Walk([], parts[..k])
    {
      WalkPrefix(parts, k);
      var p := parts[k];
      if p == "." {
        continue;
      }
      if p == ".." {
        if |stack| > 1 {
          stack := stack[..|stack| - 1];
        }
        continue;
      }
      stack := stack + [p];
    }
    assert parts[..|parts|] == parts;
    RenderStack(parts);
    r := "/" + Join(NonEmpty(stack), "/");
  }

  /** The loop's stack after one more segment. */
  lemma WalkPrefix(parts: seq<string>, k: nat)
    requires k < |parts|
    ensures Walk([], parts[..k + 1]) == Step(Walk([], parts[..k]), parts[k])
  {
    assert parts[..k + 1][..k] == parts[..k];
  }

  /** `stack.filter(Boolean)` drops exactly the bottom `""`, as every pushed segment is non-empty. */
  lemma RenderStack(parts: seq<string>)
    requires forall k :: 0 <= k < |parts| ==> Piece(parts[k])
    ensures "/" + Join(NonEmpty([""] + Walk([], parts)), "/") == Render(Walk([], parts))
  {
    var w := Walk([], parts);
    WalkClean([], parts);
    NonEmptyKeeps(w);
    NonEmptyDropsBottom(w);
  }

  lemma NonEmptyDropsBottom(w: seq<string>)
    requires NonEmpty(w) == w
    ensures NonEmpty([""] + w) == w
  {
    var xs := [""] + w;
    assert xs[0] == "" && xs[1..] == w;
    assert NonEmpty(xs) == [] + NonEmpty(w);
  }

  // ---------------------------------------------------------------------------
  // Lookup

  /** The node reached from `n` by descending through `parts`, if every step finds a child directory entry. */
  function Lookup(n: Node, parts: seq<string>): Option<Node>
    decreases |parts|
  {
    if parts == [] then Some(n)
    else match n
      case File(_) => None
      case Dir(children) =>
        match Child(children, parts[0])
        case None => None
        case Some(c) => Lookup(c, parts[1..])
  }

  /** Whether the walk can go on from `n` through segment `p`: `n` is a directory with that child. */
  predicate CanDescend(n: Option<Node>, p: string) {
    n.Some? && n.value.Dir? && Child(n.value.children, p).Some?
  }

  /** `getNode(fs, path)` for `fs.cwd == cwd` and `fs.tree["/"] == root`. */
  function Locate(root: Node, cwd: string, path: string): Option<(Node, string)> {
    var full := Resolve(cwd, path);
    match Lookup(root, Segments(full))
    case None => None
    case Some(n) => Some((n, full))
  }

  /** The loop of `getNode`, moving `node` one segment down per round. */
  method GetNode(fs: VirtualFS, path: string) returns (r: Option<(Node, string)>)
    ensures r == Locate(fs.root, fs.cwd, path)
  {
    var full := ResolvePath(fs, path);
    var parts := Segments(full);
    var node := fs.root;
    for k := 0 to |parts|
      invariant Lookup(fs.root, parts) == Lookup(node, parts[k..])
    {
      LookupStep(node, parts, k);
      if !node.Dir? || Child(node.children, parts[k]).None? {
        return None;
      }
      node := Child(node.children, parts[k]).value;
    }
    assert parts[|parts|..] == [];
    return Some((node, full));
  }

  /** One round of the walk of `getNode`. */
  lemma LookupStep(n: Node, parts: seq<string>, k: nat)
    requires k < |parts|
    ensures Lookup(n, parts[k..]) ==
      if n.Dir? && Child(n.children, parts[k]).Some? then Lookup(Child(n.children, parts[k]).value, parts[k + 1..]) else None
  {
    assert parts[k..][1..] == parts[k + 1..];
  }

  // ---------------------------------------------------------------------------
  // The filesystem object

  const ReadmeText: string := "Welcome to the Web Terminal. Type 'help' to start."
  const NotesText: string := "# Notes\n- Tailwind UI\n- Autocomplete\n- Improve FS later"
  const HomeDir: string := "/home/dev"

  /** The tree `makeFS` builds. */
  const InitialTree: Node :=
    Dir([Entry("home", Dir([Entry("dev", Dir(HomeEntries))]))])

  /** `VirtualFS`: the tree under `"/"`, which nothing changes, and the working directory, which `cd` sets. */
  class VirtualFS {
    var cwd: string
    const root: Node

    /** The working directory is a canonical path naming a directory of a well-formed tree. */
    ghost predicate Valid()
      reads this
    {
      root.Dir? && WellFormed(root) && Canonical(cwd)
      && Lookup(root, Segments(cwd)).Some? && Lookup(root, Segments(cwd)).value.Dir?
    }

    /** `makeFS()`. */
    constructor ()
      ensures cwd == HomeDir && root == InitialTree
      ensures Valid()
    {
      cwd := HomeDir;
      root := InitialTree;
      new;
      InitialTreeFacts();
    }
  }

  // ---------------------------------------------------------------------------
  // Lemmas about segments and stacks

  lemma SegmentsJoin(a: string, b: string)
    ensures Segments(a + "/" + b) == Segments(a) + Segments(b)
  {
    SplitAppend(a, b, '/');
    NonEmptyAppend(Split(a, '/'), Split(b, '/'));
  }

  /** Rendering a stack of pieces and cutting it at `/` again gives the stack back. */
  lemma SegmentsRender(st: seq<string>)
    requires forall k :: 0 <= k < |st| ==> Piece(st[k])
    ensures Segments(Render(st)) == st
  {
    assert Render(st) == "" + "/" + Join(st, "/");
    SegmentsJoin("", Join(st, "/"));
    if st == [] {
      assert Segments(Render(st)) == [] + [];
    } else {
      SplitJoin(st, '/');
      NonEmptyKeeps(st);
    }
  }

  lemma {:induction false} WalkConcat(st: seq<string>, xs: seq<string>, ys: seq<string>)
    ensures Walk(st, xs + ys) == Walk(Walk(st, xs), ys)
    decreases |ys|
  {
    if ys == [] {
      assert xs + ys == xs;
    } else {
      assert (xs + ys)[..|xs + ys| - 1] == xs + ys[..|ys| - 1];
      WalkConcat(st, xs, ys[..|ys| - 1]);
    }
  }

  /** Walking pieces from a clean stack leaves a clean stack. */
  lemma {:induction false} WalkClean(st: seq<string>, parts: seq<string>)
    requires Clean(st)
    requires forall k :: 0 <= k < |parts| ==> Piece(parts[k])
    ensures Clean(Walk(st, parts))
    decreases |parts|
  {
    if parts != [] {
      WalkClean(st, parts[..|parts| - 1]);
    }
  }

  /** Segments that are neither `.` nor `..` are pushed as they are. */
  lemma {:induction false} WalkPushes(st: seq<string>, parts: seq<string>)
    requires Clean(parts)
    ensures Walk(st, parts) == st + parts
    decreases |parts|
  {
    if parts == [] {
      assert st + parts == st;
    } else {
      var init := parts[..|parts| - 1];
      WalkPushes(st, init);
      assert st + parts == (st + init) + [parts[|parts| - 1]];
    }
  }

  /** `..` pops one segment and never goes above the root. */
  lemma WalkParent(st: seq<string>)
    ensures Walk(st, [".."]) == if st == [] then [] else st[..|st| - 1]
  {
    assert [".."][..0] == [];
  }

  /** `n` times `..` pops `n` segments, or empties the stack: the root is as high as it goes. */
  lemma {:induction false} WalkParents(st: seq<string>, n: nat)
    ensures Walk(st, seq(n, _ => "..")) == if n >= |st| then [] else st[..|st| - n]
    decreases n
  {
    if n > 0 {
      var ups := seq(n, _ => "..");
      assert ups[..n - 1] == seq(n - 1, _ => "..");
      WalkParents(st, n - 1);
    }
  }

  // ---------------------------------------------------------------------------
  // Properties of resolvePath

  /** The normalized stack is clean. */
  lemma ResolvedStackClean(cwd: string, path: string)
    ensures Clean(ResolvedStack(cwd, path))
  {
    WalkClean([], Segments(Absolute(cwd, path)));
  }

  /** The result starts with `/` and has no empty, `.` or `..` segment, nor a doubled or trailing `/`. */
  lemma ResolveCanonical(cwd: string, path: string)
    ensures StartsWith(Resolve(cwd, path), "/")
    ensures Segments(Resolve(cwd, path)) == ResolvedStack(cwd, path)
    ensures Canonical(Resolve(cwd, path))
  {
    ResolvedStackClean(cwd, path);
    SegmentsRender(ResolvedStack(cwd, path));
  }

  /** A canonical path resolves to itself, from any working directory. */
  lemma ResolveCanonicalPath(cwd: string, p: string)
    requires Canonical(p)
    ensures Resolve(cwd, p) == p
  {
    assert StartsWith(p, "/");
    WalkPushes([], Segments(p));
    assert [] + Segments(p) == Segments(p);
  }

  /** Resolving a resolved path changes nothing, whatever the working directory. */
  lemma ResolveIdempotent(cwd: string, cwd2: string, path: string)
    ensures Resolve(cwd2, Resolve(cwd, path)) == Resolve(cwd, path)
  {
    ResolveCanonical(cwd, path);
    ResolveCanonicalPath(cwd2, Resolve(cwd, path));
  }

  /** An absolute path resolves the same from every working directory. */
  lemma ResolveAbsolute(cwd: string, cwd2: string, path: string)
    requires StartsWith(path, "/")
    ensures Resolve(cwd, path) == Resolve(cwd2, path)
  {
  }

  /** A relative path continues the walk from the segments of the working directory. */
  lemma ResolveRelative(cwd: string, path: string)
    requires StartsWith(cwd, "/")
    requires path != "" && !StartsWith(path, "/")
    ensures Resolve(cwd, path) == Render(Walk(Walk([], Segments(cwd)), Segments(path)))
  {
    if EndsWith(cwd, "/") {
      var c := cwd[..|cwd| - 1];
      assert cwd == c + "/" + "";
      assert Absolute(cwd, path) == c + "/" + path;
      SegmentsJoin(c, "");
      assert Segments("") == [];
      SegmentsJoin(c, path);
      assert Segments(cwd) == Segments(c) + [];
      assert Segments(Absolute(cwd, path)) == Segments(cwd) + Segments(path);
    } else {
      assert Absolute(cwd, path) == cwd + "/" + path;
      SegmentsJoin(cwd, path);
    }
    WalkConcat([], Segments(cwd), Segments(path));
  }

  /** A path whose first character is not `/` is relative. */
  lemma Relative(p: string)
    requires p != [] && p[0] != '/'
    ensures !StartsWith(p, "/")
  {
    assert p[..1][0] == p[0];
  }

  /** A relative path gets exactly one `/` before it: a trailing `/` on cwd makes no difference. */
  lemma ResolveOneSlash(cwd: string, path: string)
    requires StartsWith(cwd, "/") && !EndsWith(cwd, "/")
    requires path != "" && !StartsWith(path, "/")
    ensures Resolve(cwd + "/", path) == Resolve(cwd, path)
  {
    assert EndsWith(cwd + "/", "/");
    assert Absolute(cwd + "/", path) == Absolute(cwd, path);
  }

  /** A single piece is its own segment list. */
  lemma SegmentsPiece(w: string)
    requires Piece(w)
    ensures Segments(w) == [w]
  {
    SplitNoSep(w, '/');
  }

  /** From a canonical working directory, a relative path walks on from its stack. */
  lemma ResolveFrom(st: seq<string>, path: string)
    requires Clean(st)
    requires path != "" && !StartsWith(path, "/")
    ensures Resolve(Render(st), path) == Render(Walk(st, Segments(path)))
  {
    CleanStack(st);
    ResolveRelative(Render(st), path);
  }

  /** A clean stack renders to an absolute path whose segments walk back to the stack. */
  lemma CleanStack(st: seq<string>)
    requires Clean(st)
    ensures StartsWith(Render(st), "/")
    ensures Walk([], Segments(Render(st))) == st
  {
    SegmentsRender(st);
    WalkPushes([], st);
    assert [] + st == st;
  }

  /** A missing or empty path is the working directory, normalized; a canonical one is itself. */
  lemma ResolveEmpty(cwd: string)
    requires StartsWith(cwd, "/")
    ensures Resolve(cwd, "") == Render(Walk([], Segments(cwd)))
    ensures Canonical(cwd) ==> Resolve(cwd, "") == cwd
  {
    assert Resolve(cwd, "") == Resolve(cwd, ".") by {
      assert Absolute(cwd, "") == Absolute(cwd, ".");
    }
    Relative(".");
    ResolveRelative(cwd, ".");
    SegmentsPiece(".");
    if Canonical(cwd) {
      ResolveCanonicalPath(cwd, cwd);
    }
  }

  /** From a canonical directory, `..` is its parent and the root is its own parent. */
  lemma ResolveParent(st: seq<string>)
    requires Clean(st)
    ensures Resolve(Render(st), "..") == Render(if st == [] then [] else st[..|st| - 1])
  {
    Relative("..");
    ResolveFrom(st, "..");
    SegmentsPiece("..");
    WalkParent(st);
  }

  /** The segments of `/home/dev`. */
  const HomeStack: seq<string> := ["home", "dev"]

  lemma HomeDirRender()
    ensures HomeDir == Render(HomeStack) && Clean(HomeStack)
  {
    assert Join(HomeStack, "/") == "home" + "/" + Join(["dev"], "/");
  }

  /** `../../..` from `/home/dev` is `/`. */
  lemma ResolveUpFromHome()
    ensures Resolve(HomeDir, "../../..") == "/"
  {
    HomeDirRender();
    Relative("../../..");
    ResolveFrom(HomeStack, "../../..");
    ThreeUps();
    WalkParents(HomeStack, 3);
  }

  lemma ThreeUps()
    ensures Segments("../../..") == seq(3, _ => "..")
  {
    assert "../../.." == ".." + "/" + (".." + "/" + "..");
    SegmentsJoin("..", ".." + "/" + "..");
    SegmentsJoin("..", "..");
    SegmentsPiece("..");
    assert seq(3, _ => "..") == [".."] + [".."] + [".."];
  }

  // ---------------------------------------------------------------------------
  // Properties of getNode

  /** Descending one more segment. */
  lemma {:induction false} LookupSnoc(n: Node, parts: seq<string>, p: string)
    ensures Lookup(n, parts + [p]) ==
      if CanDescend(Lookup(n, parts), p) then Child(Lookup(n, parts).value.children, p) else None
    decreases |parts|
  {
    if parts == [] {
      assert [] + [p] == [p];
    } else {
      assert (parts + [p])[0] == parts[0];
      assert (parts + [p])[1..] == parts[1..] + [p];
      if n.Dir? && Child(n.children, parts[0]).Some? {
        LookupSnoc(Child(n.children, parts[0]).value, parts[1..], p);
      }
    }
  }

  /** The walk succeeds exactly when every step finds a directory holding the next segment. */
  lemma {:induction false} LookupSomeIff(n: Node, parts: seq<string>)
    ensures Lookup(n, parts).Some? <==> forall k :: 0 <= k < |parts| ==> CanDescend(Lookup(n, parts[..k]), parts[k])
    decreases |parts|
  {
    if parts != [] {
      var init := parts[..|parts| - 1];
      var last := parts[|parts| - 1];
      assert parts == init + [last];
      LookupSnoc(n, init, last);
      LookupSomeIff(n, init);
      assert forall k :: 0 <= k < |init| ==> parts[..k] == init[..k] && parts[k] == init[k];
    }
  }

  /** `getNode` fails exactly when some segment is missing or some earlier segment is a file. */
  lemma LocateNoneIff(root: Node, cwd: string, path: string)
    ensures var parts := Segments(Resolve(cwd, path));
      Locate(root, cwd, path).None? <==>
      exists k :: 0 <= k < |parts| && !CanDescend(Lookup(root, parts[..k]), parts[k])
  {
    LookupSomeIff(root, Segments(Resolve(cwd, path)));
  }

  /** On success `getNode` returns the resolved path and the node the walk from the root reaches. */
  lemma LocateSome(root: Node, cwd: string, path: string)
    requires Locate(root, cwd, path).Some?
    ensures Locate(root, cwd, path).value.1 == Resolve(cwd, path)
    ensures Lookup(root, ResolvedStack(cwd, path)) == Some(Locate(root, cwd, path).value.0)
  {
    ResolveCanonical(cwd, path);
  }

  /** `"/"` is the root directory. */
  lemma LocateRoot(root: Node, cwd: string)
    ensures Locate(root, cwd, "/") == Some((root, "/"))
  {
    assert Segments("/") == [] by {
      SegmentsJoin("", "");
      assert "" + "/" + "" == "/";
      assert Segments("") == [];
    }
    assert Render([]) == "/";
  }

  /** The tree of `makeFS` is well formed and `/home/dev` is a canonical path to a directory of it. */
  lemma InitialTreeFacts()
    ensures WellFormed(InitialTree)
    ensures Canonical(HomeDir) && Segments(HomeDir) == ["home", "dev"]
    ensures Lookup(InitialTree, ["home", "dev"]) == Some(Dir(HomeEntries))
  {
    HomeDirCanonical();
    InitialWellFormed();
    LookupHome([]);
    assert HomeStack + [] == HomeStack;
  }

  /** `/home/dev` holds the two files, with their texts, and `projects/web-terminal`, an empty directory. */
  lemma InitialContents()
    ensures Lookup(InitialTree, ["home", "dev", "readme.txt"]) == Some(File(ReadmeText))
    ensures Lookup(InitialTree, ["home", "dev", "notes.md"]) == Some(File(NotesText))
    ensures Lookup(InitialTree, ["home", "dev", "projects", "web-terminal"]) == Some(Dir([]))
  {
    HomeChildren();
    assert ["home", "dev", "readme.txt"] == HomeStack + ["readme.txt"];
    LookupHomeChild("readme.txt", File(ReadmeText));
    assert ["home", "dev", "notes.md"] == HomeStack + ["notes.md"];
    LookupHomeChild("notes.md", File(NotesText));
    LookupProjects();
  }

  lemma HomeDirCanonical()
    ensures Canonical(HomeDir) && Segments(HomeDir) == ["home", "dev"]
  {
    HomeDirRender();
    SegmentsRender(HomeStack);
  }

  lemma InitialWellFormed()
    ensures WellFormed(InitialTree)
  {
    assert HomeEntries[0].name[0] != HomeEntries[1].name[0];
    assert HomeEntries[0].name[0] != HomeEntries[2].name[0];
    assert HomeEntries[1].name[0] != HomeEntries[2].name[0];
    assert UniqueNames(HomeEntries);
    assert WellFormed(Dir(HomeEntries));
  }

  /** Below `/home/dev` the walk continues in its children. */
  lemma LookupHome(rest: seq<string>)
    ensures Lookup(InitialTree, HomeStack + rest) == Lookup(Dir(HomeEntries), rest)
  {
    var p := HomeStack + rest;
    assert p[0] == "home" && p[1..] == ["dev"] + rest;
    assert Lookup(InitialTree, p) == Lookup(Dir([Entry("dev", Dir(HomeEntries))]), ["dev"] + rest);
    assert (["dev"] + rest)[0] == "dev" && (["dev"] + rest)[1..] == rest;
  }

  /** A child of `/home/dev` found by name. */
  lemma LookupHomeChild(name: string, n: Node)
    requires Child(HomeEntries, name) == Some(n)
    ensures Lookup(InitialTree, HomeStack + [name]) == Some(n)
  {
    LookupHome([name]);
    assert [name][1..] == [];
  }

  lemma LookupProjects()
    ensures Lookup(InitialTree, ["home", "dev", "projects", "web-terminal"]) == Some(Dir([]))
  {
    assert ["home", "dev", "projects", "web-terminal"] == HomeStack + ["projects", "web-terminal"];
    LookupHome(["projects", "web-terminal"]);
    HomeChildren();
    assert ["projects", "web-terminal"][1..] == ["web-terminal"];
    assert ["web-terminal"][1..] == [];
  }

  /** The children of `/home/dev`, found by name. */
  lemma HomeChildren()
    ensures Child(HomeEntries, "readme.txt") == Some(File(ReadmeText))
    ensures Child(HomeEntries, "notes.md") == Some(File(NotesText))
    ensures Child(HomeEntries, "projects") == Some(Dir([Entry("web-terminal", Dir([]))]))
  {
    assert HomeEntries[0].name[0] != "notes.md"[0];
    assert HomeEntries[0].name[0] != "projects"[0];
    assert HomeEntries[1..][0].name[0] != "projects"[0];
    assert Child(HomeEntries[1..][1..], "projects") == Some(HomeEntries[2].node);
    assert Child(HomeEntries[1..], "projects") == Child(HomeEntries[1..][1..], "projects");
  }

  /** The children of `/home/dev` in `makeFS`, in insertion order. */
  const HomeEntries: seq<Entry> := [
    Entry("readme.txt", File(ReadmeText)),
    Entry("notes.md", File(NotesText)),
    Entry("projects", Dir([Entry("web-terminal", Dir([]))]))]
}

/** Which exercise a file belongs to: the globs a course declares, and the ones `course init` writes
    for a folder per exercise. */
module Exercises {
  import opened EditScripts
  import opened Globs

  // ---- Exercises of a course ----

  /** An exercise as a course file declares it. */
  datatype Declared = Declared(name: string, globs: seq<string>)

  /** The same, compiled. */
  datatype Rule = Rule(name: string, patterns: seq<string>)

  function Normalized(path: string): string {
    seq(|path|, i requires 0 <= i < |path| => if path[i] == '\\' then '/' else path[i])
  }

  ghost predicate Covers(d: Declared, path: string) { AnyAccepts(d.globs, path) }

  /** The first exercise that covers a path. */
  ghost function Resolved(ds: seq<Declared>, path: string): Option<string> {
    if ds == [] then None else if Covers(ds[0], path) then Some(ds[0].name) else Resolved(ds[1..], path)
  }

  function PatternsOf(globs: seq<string>): seq<string> {
    if globs == [] then []
    else PatternsOf(DropLast(globs)) + if Last(globs) != "" then ["^" + Compiled(Last(globs)) + "$"] else []
  }

  ghost predicate AnyTests(patterns: seq<string>, path: string) {
    exists k :: 0 <= k < |patterns| && Test(patterns[k], path)
  }

  ghost predicate AnyAccepts(globs: seq<string>, path: string) {
    exists i :: 0 <= i < |globs| && globs[i] != "" && Accepts(globs[i], path)
  }

  /** Some expression matches exactly when some glob that is not empty does. */
  lemma {:induction false} PatternsCover(globs: seq<string>, path: string)
    ensures AnyTests(PatternsOf(globs), path) <==> AnyAccepts(globs, path)
    decreases |globs|
  {
    if globs != [] {
      var before, glob := DropLast(globs), Last(globs);
      PatternsCover(before, path);
      CompiledMeansTheGlob(glob, path);
      Rejoin(globs);
      AnyMore(before, glob, path);
      SomeMore(PatternsOf(before), "^" + Compiled(glob) + "$", path);
      NilAdds(PatternsOf(before));
    }
  }

  lemma SomeMore(ps: seq<string>, p: string, path: string)
    ensures AnyTests(ps + [p], path) <==> AnyTests(ps, path) || Test(p, path)
  {
    var more := ps + [p];
    assert more[|ps|] == p;
    assert forall k :: 0 <= k < |ps| ==> more[k] == ps[k];
  }

  lemma AnyMore(globs: seq<string>, glob: string, path: string)
    ensures AnyAccepts(globs + [glob], path) <==> AnyAccepts(globs, path) || (glob != "" && Accepts(glob, path))
  {
    var more := globs + [glob];
    assert more[|globs|] == glob;
    assert forall i :: 0 <= i < |globs| ==> more[i] == globs[i];
  }

  function Flattened(files: seq<seq<Declared>>): seq<Declared> {
    if files == [] then [] else Flattened(DropLast(files)) + Last(files)
  }

  ghost predicate Compiles(ds: seq<Declared>, rules: seq<Rule>) {
    && |rules| == |ds|
    && forall i :: 0 <= i < |ds| ==> rules[i] == Rule(ds[i].name, PatternsOf(ds[i].globs))
  }

  class ExerciseMap {
    var rules: seq<Rule>
    ghost var declared: seq<Declared>

    ghost predicate Valid() reads this { Compiles(declared, rules) }

    constructor ()
      ensures Valid() && declared == []
    {
      rules, declared := [], [];
    }

    /** Afterwards the rules are those of `files`, in order, and no others. */
    method Load(files: seq<seq<Declared>>)
      modifies this
      ensures Valid() && declared == Flattened(files)
    {
      rules, declared := [], [];
      for f := 0 to |files|
        invariant Valid() && declared == Flattened(files[..f])
      {
        assert DropLast(files[..f + 1]) == files[..f];
        ghost var before := declared;
        for e := 0 to |files[f]|
          invariant Valid() && declared == before + files[f][..e]
        {
          var patterns := Compile(files[f][e].globs);
          rules := rules + [Rule(files[f][e].name, patterns)];
          declared := declared + [files[f][e]];
        }
      }
      assert files[..|files|] == files;
    }

    /** The exercise a file of the workspace belongs to. */
    method Resolve(relativePath: string) returns (name: Option<string>)
      requires Valid()
      ensures name == Resolved(declared, Normalized(relativePath))
    {
      var path := Normalized(relativePath);
      for i := 0 to |rules|
        invariant Resolved(declared[i..], path) == Resolved(declared, path)
      {
        PatternsCover(declared[i].globs, path);
        var matches := Any(rules[i].patterns, path);
        assert declared[i..][1..] == declared[i + 1..];
        if matches {
          return Some(rules[i].name);
        }
      }
      return None;
    }
  }

  method Compile(globs: seq<string>) returns (patterns: seq<string>)
    ensures patterns == PatternsOf(globs)
  {
    patterns := [];
    for i := 0 to |globs|
      invariant patterns == PatternsOf(globs[..i])
    {
      assert DropLast(globs[..i + 1]) == globs[..i];
      if globs[i] != "" {
        var source := GlobToRegExp(globs[i]);
        patterns := patterns + [source];
      }
    }
    assert globs[..|globs|] == globs;
  }

  method Any(patterns: seq<string>, path: string) returns (any: bool)
    ensures any <==> AnyTests(patterns, path)
  {
    for k := 0 to |patterns|
      invariant forall j :: 0 <= j < k ==> !Test(patterns[j], path)
    {
      if Test(patterns[k], path) {
        return true;
      }
    }
    return false;
  }

  // ---- A rule for each folder ----

  /** Folders whose names a glob can spell: none with a wildcard in it. */
  predicate Usable(folder: string) { '*' !in folder && '?' !in folder }

  /** A directory entry holds no slash. */
  predicate IsFolder(folder: string) { '/' !in folder && Usable(folder) }

  function FolderGlob(folder: string): string { folder + "/**" }

  predicate Under(folder: string, path: string) { folder + "/" <= path }

  /** What a path under a folder goes on with. */
  function Beyond(folder: string, path: string): string
    requires Under(folder, path)
  {
    path[|folder| + 1..]
  }

  lemma Deepest(path: string)
    ensures Accepts("/**", path) <==> "/" <= path && OnOneLine(path[1..])
  {
    assert "/**"[1..] == "**" && AfterDeep("**") == "";
    if path != [] {
      var rest := path[1..];
      assert rest[..|rest|] == rest && rest[|rest|..] == [];
      if path[0] == '/' && OnOneLine(rest) {
        assert OnOneLine(rest[..|rest|]) && Accepts("", rest[|rest|..]);
        assert Accepts("**", rest);
      }
      if Accepts("**", rest) {
        var n :| 0 <= n <= |rest| && OnOneLine(rest[..n]) && Accepts("", rest[n..]);
        assert n == |rest|;
      }
    }
  }

  /** A folder's glob accepts exactly what is under the folder, on one line. */
  lemma {:induction false} FolderGlobAccepts(folder: string, path: string)
    requires IsFolder(folder)
    ensures Accepts(FolderGlob(folder), path) <==> Under(folder, path) && OnOneLine(Beyond(folder, path))
    decreases |folder|
  {
    var glob := FolderGlob(folder);
    if folder == "" {
      assert glob == "/**" && folder + "/" == "/";
      Deepest(path);
    } else {
      assert glob[0] == folder[0] && glob[1..] == FolderGlob(folder[1..]);
      if path != [] {
        FolderGlobAccepts(folder[1..], path[1..]);
        UnderFirst(folder, path);
      }
    }
  }

  lemma UnderFirst(folder: string, path: string)
    requires folder != [] && path != []
    ensures Under(folder, path) <==> folder[0] == path[0] && Under(folder[1..], path[1..])
    ensures Under(folder, path) ==> Beyond(folder, path) == Beyond(folder[1..], path[1..])
  {
    assert folder + "/" == [folder[0]] + (folder[1..] + "/");
    assert path == [path[0]] + path[1..];
  }

  /** No path is under two folders. */
  lemma UnderOneFolder(f: string, g: string, path: string)
    requires '/' !in f && '/' !in g && Under(f, path) && Under(g, path)
    ensures f == g
  {
    assert path[|f|] == (f + "/")[|f|] && path[|g|] == (g + "/")[|g|];
    assert path[..|f|] == (f + "/")[..|f|] == f && path[..|g|] == (g + "/")[..|g|] == g;
  }

  /** Paths are looked up with slashes only, so a folder with a backslash in its name maps nothing,
      not even its own files. Every other folder's rule finds a file under it exactly when the rest of
      its path is on one line. */
  lemma FolderRuleWorksIff(folder: string, rest: string)
    requires IsFolder(folder)
    ensures Accepts(FolderGlob(folder), Normalized(folder + "/" + rest)) <==> '\\' !in folder && OnOneLine(rest)
  {
    var path := Normalized(folder + "/" + rest);
    FolderGlobAccepts(folder, path);
    if '\\' in folder {
      NotUnderBackslash(folder, folder + "/" + rest);
    } else {
      assert path[..|folder| + 1] == folder + "/";
      SameLine(rest);
      assert Beyond(folder, path) == Normalized(rest);
    }
  }

  lemma SameLine(s: string)
    ensures OnOneLine(Normalized(s)) <==> OnOneLine(s)
  {
    assert forall i :: 0 <= i < |s| ==> (IsLineTerminator(Normalized(s)[i]) <==> IsLineTerminator(s[i]));
  }

  lemma NotUnderBackslash(folder: string, path: string)
    requires '\\' in folder
    ensures !Under(folder, Normalized(path))
  {
    var i :| 0 <= i < |folder| && folder[i] == '\\';
    assert (folder + "/")[i] == '\\';
  }

  type Slugger = string -> Option<string>

  /** The first folder of its slug. */
  predicate Kept(folders: seq<string>, slug: Slugger, i: nat)
    requires i < |folders|
  {
    slug(folders[i]).Some? && forall j: nat :: j < i ==> slug(folders[j]) != slug(folders[i])
  }

  /** A list of rules with one for each folder that is kept, and no others. */
  ghost predicate RulesFor(folders: seq<string>, slug: Slugger, rules: seq<Declared>) {
    && (forall i: nat :: i < |folders| && Kept(folders, slug, i) ==>
                           Declared(slug(folders[i]).value, [FolderGlob(folders[i])]) in rules)
    && (forall d :: d in rules ==> exists i: nat :: IsRuleOf(folders, slug, i, d))
  }

  predicate IsRuleOf(folders: seq<string>, slug: Slugger, i: nat, d: Declared) {
    i < |folders| && Kept(folders, slug, i) && d == Declared(slug(folders[i]).value, [FolderGlob(folders[i])])
  }

  /** The rules of the first `n` folders. */
  function RulesOf(folders: seq<string>, slug: Slugger, n: nat): seq<Declared>
    requires n <= |folders|
  {
    if n == 0 then []
    else
      RulesOf(folders, slug, n - 1)
      + if Kept(folders, slug, n - 1) then [Declared(slug(folders[n - 1]).value, [FolderGlob(folders[n - 1])])] else []
  }

  method RulesForFolders(folders: seq<string>, slug: Slugger) returns (rules: seq<Declared>)
    ensures rules == RulesOf(folders, slug, |folders|)
    ensures RulesFor(folders, slug, rules)
  {
    rules := [];
    var seen: set<string> := {};
    for i := 0 to |folders|
      invariant rules == RulesOf(folders, slug, i)
      invariant forall s :: s in seen <==> exists j: nat :: j < i && slug(folders[j]) == Some(s)
    {
      var s := slug(folders[i]);
      if s.Some? && s.value !in seen {
        seen := seen + {s.value};
        rules := rules + [Declared(s.value, [FolderGlob(folders[i])])];
      }
    }
    OneForEachKept(folders, slug, |folders|);
    assert folders[..|folders|] == folders;
  }

  lemma {:induction false} OneForEachKept(folders: seq<string>, slug: Slugger, n: nat)
    requires n <= |folders|
    ensures RulesFor(folders[..n], slug, RulesOf(folders, slug, n))
    decreases n
  {
    if n > 0 {
      OneForEachKept(folders, slug, n - 1);
      OneMoreFolder(folders, slug, n - 1, RulesOf(folders, slug, n - 1));
    }
  }

  /** No two rules have the same name. */
  lemma {:induction false} NamesAreDistinct(folders: seq<string>, slug: Slugger, n: nat, a: nat, b: nat)
    requires n <= |folders| && a < b < |RulesOf(folders, slug, n)|
    ensures RulesOf(folders, slug, n)[a].name != RulesOf(folders, slug, n)[b].name
    decreases n
  {
    var before := RulesOf(folders, slug, n - 1);
    if b < |before| {
      NamesAreDistinct(folders, slug, n - 1, a, b);
    } else {
      OneForEachKept(folders, slug, n - 1);
      assert before[a] in before;
      var j: nat :| IsRuleOf(folders[..n - 1], slug, j, before[a]);
      assert Kept(folders, slug, n - 1) && slug(folders[j]) != slug(folders[n - 1]);
    }
  }

  lemma RuleStays(folders: seq<string>, slug: Slugger, m: nat, i: nat, d: Declared)
    requires i < m <= |folders|
    ensures IsRuleOf(folders[..m], slug, i, d) <==> IsRuleOf(folders, slug, i, d)
  {
    assert forall j: nat :: j < m ==> folders[..m][j] == folders[j];
  }

  lemma OneMoreFolder(folders: seq<string>, slug: Slugger, n: nat, rules: seq<Declared>)
    requires n < |folders| && RulesFor(folders[..n], slug, rules)
    ensures RulesFor(folders[..n + 1], slug,
                     if Kept(folders, slug, n) then rules + [Declared(slug(folders[n]).value, [FolderGlob(folders[n])])]
                     else rules)
  {
    var was, now := folders[..n], folders[..n + 1];
    var rules' := if !Kept(folders, slug, n) then rules
                  else rules + [Declared(slug(folders[n]).value, [FolderGlob(folders[n])])];
    forall d | d in rules' ensures exists i: nat :: IsRuleOf(now, slug, i, d) {
      if d in rules {
        var i: nat :| IsRuleOf(was, slug, i, d);
        RuleStays(folders, slug, n, i, d);
        RuleStays(folders, slug, n + 1, i, d);
      } else {
        RuleStays(folders, slug, n + 1, n, d);
      }
    }
    forall i: nat | i < n + 1 && Kept(now, slug, i)
      ensures Declared(slug(now[i]).value, [FolderGlob(now[i])]) in rules'
    {
      var d := Declared(slug(now[i]).value, [FolderGlob(now[i])]);
      RuleStays(folders, slug, n + 1, i, d);
      if i < n {
        RuleStays(folders, slug, n, i, d);
      }
    }
  }

  // ---- Together ----

  /** Only the rules that cover a path have a say. */
  lemma {:induction false} ResolvedByOne(ds: seq<Declared>, path: string, name: string)
    requires forall i :: 0 <= i < |ds| && Covers(ds[i], path) ==> ds[i].name == name
    ensures Resolved(ds, path) == if exists i :: 0 <= i < |ds| && Covers(ds[i], path) then Some(name) else None
    decreases |ds|
  {
    if ds != [] {
      ResolvedByOne(ds[1..], path, name);
      if exists i :: 0 <= i < |ds| && Covers(ds[i], path) {
        var i :| 0 <= i < |ds| && Covers(ds[i], path);
        assert i > 0 ==> Covers(ds[1..][i - 1], path);
      }
    }
  }

  lemma CoversByOneGlob(name: string, glob: string, path: string)
    requires glob != ""
    ensures Covers(Declared(name, [glob]), path) <==> Accepts(glob, path)
  {
    assert [glob][0] == glob;
  }

  /** What comes before the first slash, if there is one. */
  function FirstPart(path: string): (part: Option<string>)
    ensures part.Some? ==> |part.value| < |path| && '/' !in part.value
  {
    if path == "" then None
    else if path[0] == '/' then Some("")
    else
      match FirstPart(path[1..])
      case None => None
      case Some(part) => Some([path[0]] + part)
  }

  lemma {:induction false} UnderItsFirstPart(folder: string, path: string)
    requires '/' !in folder
    ensures Under(folder, path) <==> FirstPart(path) == Some(folder)
    decreases |folder|
  {
    if path != "" {
      if folder == "" {
        assert folder + "/" == "/";
      } else {
        UnderFirst(folder, path);
        UnderItsFirstPart(folder[1..], path[1..]);
        assert folder == [folder[0]] + folder[1..];
        if path[0] != '/' && FirstPart(path) == Some(folder) {
          ConsEnds(path[0], FirstPart(path[1..]).value);
        }
      }
    }
  }

  /** Some folder of that name is the first of its slug. */
  ghost predicate HasKept(folders: seq<string>, slug: Slugger, folder: string) {
    exists i: nat :: i < |folders| && Kept(folders, slug, i) && folders[i] == folder
  }

  /** The exercise of the folder that `path` begins with, if that one is kept and the rest of the path
      is on one line. */
  ghost function HomeOf(folders: seq<string>, slug: Slugger, path: string): Option<string> {
    match FirstPart(path)
    case None => None
    case Some(folder) =>
      if HasKept(folders, slug, folder) && OnOneLine(path[|folder| + 1..]) then slug(folder) else None
  }

  /** From folders to files: with the rules written for some folders, in whatever order, any file
      belongs to the exercise of the folder its path begins with, slashes normalised, as long as that
      one is the first of its slug and the rest of the path is on one line; and otherwise to none. */
  lemma FilesBelongToTheirFolder(folders: seq<string>, slug: Slugger, rules: seq<Declared>, path: string)
    requires forall j :: 0 <= j < |folders| ==> IsFolder(folders[j])
    requires RulesFor(folders, slug, rules)
    ensures Resolved(rules, Normalized(path)) == HomeOf(folders, slug, Normalized(path))
  {
    var p := Normalized(path);
    var name := if FirstPart(p).Some? && slug(FirstPart(p).value).Some? then slug(FirstPart(p).value).value else "";
    forall d | d in rules && Covers(d, p) ensures d.name == name && HomeOf(folders, slug, p) == Some(name) {
      var j: nat :| IsRuleOf(folders, slug, j, d);
      CoveredByFirstPart(folders, slug, j, d, p);
    }
    ResolvedByOne(rules, p, name);
    if HomeOf(folders, slug, p).Some? {
      var f := FirstPart(p).value;
      var i: nat :| i < |folders| && Kept(folders, slug, i) && folders[i] == f;
      var d := Declared(name, [FolderGlob(f)]);
      assert IsRuleOf(folders, slug, i, d);
      CoveredByFirstPart(folders, slug, i, d, p);
      var k :| 0 <= k < |rules| && rules[k] == d;
    }
  }

  /** So the files of a folder with a backslash in its name are taken for those of the folder before
      the backslash, where there is one. */
  lemma BackslashFilesGoElsewhere(folders: seq<string>, slug: Slugger, rules: seq<Declared>, before: string,
                                  after: string, file: string)
    requires forall j :: 0 <= j < |folders| ==> IsFolder(folders[j])
    requires RulesFor(folders, slug, rules) && '/' !in before && '\\' !in before
    ensures Resolved(rules, Normalized(before + "\\" + after + "/" + file))
         == if HasKept(folders, slug, before) && OnOneLine(after + "/" + file) then slug(before) else None
  {
    var path, rest := before + "\\" + after + "/" + file, after + "/" + file;
    var p := Normalized(path);
    FilesBelongToTheirFolder(folders, slug, rules, path);
    assert p == before + "/" + Normalized(rest);
    UnderItsFirstPart(before, p);
    SameLine(rest);
    assert p[|before| + 1..] == Normalized(rest);
  }

  /** A folder's rule covers the paths that begin with it, as far as they are on one line. */
  lemma CoveredByFirstPart(folders: seq<string>, slug: Slugger, i: nat, d: Declared, path: string)
    requires IsRuleOf(folders, slug, i, d) && IsFolder(folders[i])
    ensures Covers(d, path) <==> FirstPart(path) == Some(folders[i]) && OnOneLine(path[|folders[i]| + 1..])
  {
    CoversByOneGlob(d.name, FolderGlob(folders[i]), path);
    FolderGlobAccepts(folders[i], path);
    UnderItsFirstPart(folders[i], path);
  }
}

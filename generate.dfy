/**
 * The build helper src/sim_csv_gui/generate.py: the names of the generated
 * Python files, the checks on the file arguments, and the rewrite that puts
 * the package name in front of the resource-module imports of a generated UI
 * file. Paths follow POSIX `os.path` rules.
 */
module Generate {
  import opened Wrappers
  import opened PyText

  datatype GenError =
    | ArgumentTypeError(message: string)
    | MissingResource(moduleName: string)   // "depends on missing resource file"
    | FileNotFound(path: string)        // `open` on a path that does not exist

  // ---------------------------------------------------------------------------
  // File names

  /** `s.rfind(c)`: the last index holding `c`, or -1. */
  function RFind(s: string, c: char): (r: int)
    ensures -1 <= r < |s|
    ensures r >= 0 ==> s[r] == c
    ensures forall i :: r < i < |s| ==> s[i] != c
  {
    if |s| == 0 then -1 else if s[|s| - 1] == c then |s| - 1 else RFind(s[..|s| - 1], c)
  }

  /** `os.path.basename(p)`: what follows the last `/`. */
  function Basename(p: string): (r: string)
    ensures '/' !in r && EndsWith(p, r)
    ensures '/' !in p ==> r == p
  {
    var i := RFind(p, '/') + 1;
    assert forall c :: c in p[i..] ==> c != '/';
    p[i..]
  }

  /** Some character of `p` before index `k` is not a dot. */
  predicate HasNonDotBefore(p: string, k: int)
    requires k <= |p|
  {
    exists i :: 0 <= i < k && p[i] != '.'
  }

  /**
   * `os.path.splitext(p)[0]` for a name without `/`: the text before the last
   * dot, unless only dots come before that dot (a dot file has no extension).
   */
  function Root(p: string): (r: string)
    ensures StartsWith(p, r)
  {
    var dot := RFind(p, '.');
    if dot >= 0 && HasNonDotBefore(p, dot) then p[..dot] else p
  }

  /** `get_resource_py_filename`. */
  function GetResourcePyFilename(filename: string): string {
    Root(Basename(filename)) + "_rc.py"
  }

  /** `get_ui_py_filename`. */
  function GetUiPyFilename(filename: string): string {
    Root(Basename(filename)) + ".py"
  }

  /** Both derived names lie in the current directory, whatever directory the input was in. */
  lemma DerivedNamesHaveNoDirectory(filename: string)
    ensures '/' !in GetUiPyFilename(filename) && '/' !in GetResourcePyFilename(filename)
  {
    var b := Basename(filename);
    var r := Root(b);
    assert forall c :: c in r ==> c in b by {
      forall c | c in r ensures c in b {
        var i :| 0 <= i < |r| && r[i] == c;
        assert b[i] == c;
      }
    }
  }

  lemma DirectoryIsIgnored(dir: string, name: string)
    requires '/' !in name
    ensures GetUiPyFilename(dir + "/" + name) == GetUiPyFilename(name)
    ensures GetResourcePyFilename(dir + "/" + name) == GetResourcePyFilename(name)
  {
    var p := dir + "/" + name;
    assert p[|dir| + 1..] == name;
    assert p[|dir|] == '/';
    forall k | |dir| < k < |p| ensures p[k] != '/' {
      assert p[k] == name[k - |dir| - 1];
      assert name[k - |dir| - 1] in name;
    }
  }

  /**
   * Only the last extension goes: a name `stem.ext` whose extension holds no
   * dot and whose stem is not all dots becomes `stem.py` and `stem_rc.py`.
   */
  lemma OnlyLastExtensionIsRemoved(stem: string, ext: string)
    requires '/' !in stem && '/' !in ext && '.' !in ext
    requires exists i :: 0 <= i < |stem| && stem[i] != '.'
    ensures GetUiPyFilename(stem + "." + ext) == stem + ".py"
    ensures GetResourcePyFilename(stem + "." + ext) == stem + "_rc.py"
  {
    var p := stem + "." + ext;
    assert '/' !in p by {
      forall i | 0 <= i < |p| ensures p[i] != '/' {
        if i < |stem| { assert p[i] in stem; }
        else if i > |stem| { assert p[i] == ext[i - |stem| - 1]; assert p[i] in ext; }
      }
    }
    assert p[|stem|] == '.';
    forall k | |stem| < k < |p| ensures p[k] != '.' {
      assert p[k] == ext[k - |stem| - 1];
      assert ext[k - |stem| - 1] in ext;
    }
    var i :| 0 <= i < |stem| && stem[i] != '.';
    assert p[i] == stem[i];
    assert p[..|stem|] == stem;
  }

  lemma ExampleNames()
    ensures GetUiPyFilename("a.b.ui") == "a.b.py"
  {
    var stem, ext := "a.b", "ui";
    assert stem[0] != '.';
    assert '/' !in stem && '/' !in ext && '.' !in ext;
    OnlyLastExtensionIsRemoved(stem, ext);
    assert stem + "." + ext == "a.b.ui";
    assert stem + ".py" == "a.b.py";
  }

  /** A name whose characters before its last dot are all dots keeps its whole name. */
  lemma DotFileHasNoExtension(name: string)
    requires '/' !in name && forall i :: 0 <= i < RFind(name, '.') ==> name[i] == '.'
    ensures GetUiPyFilename(name) == name + ".py"
    ensures GetResourcePyFilename(name) == name + "_rc.py"
  {
  }

  // ---------------------------------------------------------------------------
  // The argument checks

  /** `UIFileArgType` and `ResourceFileArgType`: the file must exist, then its lower-cased name must carry the extension. */
  function ExtensionArgType(filename: string, existing: set<string>, ext: string): (r: Result<string, GenError>)
    ensures r.Ok? <==> filename in existing && EndsWith(Lower(filename), ext)
    ensures r.Ok? ==> r.value == filename
    ensures filename !in existing ==> r == Err(ArgumentTypeError("File '" + filename + "' does not exist"))
  {
    if filename !in existing then Err(ArgumentTypeError("File '" + filename + "' does not exist"))
    else if !EndsWith(Lower(filename), ext) then Err(ArgumentTypeError("Check that '" + filename + "' ends with '" + ext + "'"))
    else Ok(filename)
  }

  function UIFileArgType(filename: string, existing: set<string>): (r: Result<string, GenError>)
    ensures r.Ok? <==> filename in existing && EndsWith(Lower(filename), ".ui")
  {
    ExtensionArgType(filename, existing, ".ui")
  }

  function ResourceFileArgType(filename: string, existing: set<string>): (r: Result<string, GenError>)
    ensures r.Ok? <==> filename in existing && EndsWith(Lower(filename), ".qrc")
  {
    ExtensionArgType(filename, existing, ".qrc")
  }

  /** The extension test ignores case: `Main.UI` passes as well as `main.ui`. */
  lemma ExtensionCaseIgnored(filename: string, existing: set<string>)
    requires filename in existing && EndsWith(filename, ".UI")
    ensures UIFileArgType(filename, existing).Ok?
  {
    var n := |filename|;
    var l := Lower(filename);
    assert l[n - 3..] == ".ui" by {
      assert filename[n - 3..] == ".UI";
      assert filename[n - 3] == '.' && filename[n - 2] == 'U' && filename[n - 1] == 'I';
    }
  }

  // ---------------------------------------------------------------------------
  // The import rewrite: re.compile(r"(import\s)(.*[_]rc)")

  /** `import` followed by one white-space character starts at `i`. */
  predicate ImportAt(s: string, i: nat) {
    i + 7 <= |s| && s[i..i + 6] == "import" && IsPySpace(s[i + 6])
  }

  /** The end of the line holding index `j`: the first `\n` at or after `j`, or the end of the text. */
  function LineEnd(s: string, j: nat): (e: nat)
    requires j <= |s|
    ensures j <= e <= |s| && (e < |s| ==> s[e] == '\n')
    ensures forall k :: j <= k < e ==> s[k] != '\n'
    decreases |s| - j
  {
    if j == |s| || s[j] == '\n' then j else LineEnd(s, j + 1)
  }

  predicate RcAt(s: string, k: nat) {
    k + 3 <= |s| && s[k..k + 3] == "_rc"
  }

  /** The last `_rc` that starts at or after `j` and ends by `e`: as far as the greedy `.*` can reach. */
  function LastRc(s: string, j: nat, e: nat): (r: Option<nat>)
    requires j <= e <= |s|
    ensures r.Some? ==> j <= r.value && r.value + 3 <= e && RcAt(s, r.value)
    ensures r.Some? ==> forall k :: r.value < k && k + 3 <= e ==> !RcAt(s, k)
    ensures r.None? ==> forall k :: j <= k && k + 3 <= e ==> !RcAt(s, k)
    decreases e
  {
    if e < j + 3 then None
    else if RcAt(s, e - 3) then Some(e - 3)
    else LastRc(s, j, e - 1)
  }

  /** Where a match starting at `i` ends, if the pattern matches there. */
  function MatchEnd(s: string, i: nat): (r: Option<nat>)
    ensures r.Some? ==> ImportAt(s, i) && i + 7 < r.value <= |s|
  {
    if !ImportAt(s, i) then None
    else
      match LastRc(s, i + 7, LineEnd(s, i + 7))
      case Some(k) => Some(k + 3)
      case None => None
  }

  /** `findall(...)` from index `i`, group 2 of each match: the names of the resource modules. */
  function ResourceModules(s: string, i: nat): (r: seq<string>)
    requires i <= |s|
    ensures forall m :: m in r ==> EndsWith(m, "_rc") && '\n' !in m
    decreases |s| - i
  {
    if i == |s| then []
    else
      match MatchEnd(s, i)
      case Some(g) =>
        var m := s[i + 7..g];
        var e := LineEnd(s, i + 7);
        assert m[|m| - 3..] == s[g - 3..g];
        assert forall c :: c in m ==> c != '\n' by {
          forall c | c in m ensures c != '\n' {
            var k :| 0 <= k < |m| && m[k] == c;
            assert m[k] == s[i + 7 + k];
          }
        }
        [m] + ResourceModules(s, g)
      case None => ResourceModules(s, i + 1)
  }

  /** `sub(r"\g<1>" + insert + r"\g<2>", ...)` from index `i`: `insert` goes between the two groups of every match. */
  function Sub(s: string, insert: string, i: nat): string
    requires i <= |s|
    decreases |s| - i
  {
    if i == |s| then ""
    else
      match MatchEnd(s, i)
      case Some(g) => s[i..i + 7] + insert + s[i + 7..g] + Sub(s, insert, g)
      case None => [s[i]] + Sub(s, insert, i + 1)
  }

  /** The rewrite with `package_name + "."` between `import ` and each resource module. */
  function PrefixResourceImports(contents: string, packageName: string): string {
    Sub(contents, packageName + ".", 0)
  }

  /** Inserting nothing gives the text back: the rewrite changes nothing but the insertions. */
  lemma {:induction false} EmptyInsertIsIdentity(s: string, i: nat)
    requires i <= |s|
    ensures Sub(s, "", i) == s[i..]
    decreases |s| - i
  {
    if i < |s| {
      match MatchEnd(s, i)
      case Some(g) =>
        EmptyInsertIsIdentity(s, g);
        assert s[i..i + 7] + s[i + 7..g] + s[g..] == s[i..];
      case None =>
        EmptyInsertIsIdentity(s, i + 1);
        assert [s[i]] + s[i + 1..] == s[i..];
    }
  }

  /** The text grows by one insertion per resource import, and by nothing else. */
  lemma {:induction false} SubLength(s: string, insert: string, i: nat)
    requires i <= |s|
    ensures |Sub(s, insert, i)| == |s| - i + |ResourceModules(s, i)| * |insert|
    decreases |s| - i
  {
    if i < |s| {
      match MatchEnd(s, i)
      case Some(g) =>
        SubLength(s, insert, g);
        var n := |ResourceModules(s, g)|;
        assert |ResourceModules(s, i)| == n + 1;
        assert |Sub(s, insert, i)| == 7 + |insert| + (g - i - 7) + |Sub(s, insert, g)|;
        assert (n + 1) * |insert| == n * |insert| + |insert|;
      case None =>
        SubLength(s, insert, i + 1);
        assert |ResourceModules(s, i)| == |ResourceModules(s, i + 1)|;
    }
  }

  /** A text without resource imports is left as it is. */
  lemma {:induction false} NoResourceImportsUnchanged(s: string, insert: string, i: nat)
    requires i <= |s| && ResourceModules(s, i) == []
    ensures Sub(s, insert, i) == s[i..]
    decreases |s| - i
  {
    if i < |s| {
      match MatchEnd(s, i)
      case Some(g) =>
      case None =>
        NoResourceImportsUnchanged(s, insert, i + 1);
        assert [s[i]] + s[i + 1..] == s[i..];
    }
  }

  /** The first module, in order, whose `.py` file does not exist. */
  function FirstMissing(modules: seq<string>, existing: set<string>): (r: Option<string>)
    ensures r.None? <==> forall i :: 0 <= i < |modules| ==> modules[i] + ".py" in existing
    ensures r.Some? ==> exists i :: (0 <= i < |modules| && modules[i] == r.value && r.value + ".py" !in existing
      && forall j :: 0 <= j < i ==> modules[j] + ".py" in existing)
  {
    if |modules| == 0 then None
    else if modules[0] + ".py" !in existing then Some(modules[0])
    else
      var r := FirstMissing(modules[1..], existing);
      assert forall i :: 1 <= i < |modules| ==> modules[1..][i - 1] == modules[i];
      if r.Some? then
        var i :| 0 <= i < |modules[1..]| && modules[1..][i] == r.value && r.value + ".py" !in existing
          && forall j :: 0 <= j < i ==> modules[1..][j] + ".py" in existing;
        assert modules[i + 1] == r.value;
        r
      else r
  }

  /**
   * `prefix_ui_python_file_resource_imports` on a file system given as a map
   * from path to contents: reading a missing file raises, a missing resource
   * module raises before anything is written, and otherwise the file is
   * overwritten with the rewritten text.
   */
  function PrefixSpec(files: map<string, string>, path: string, packageName: string): (r: Result<map<string, string>, GenError>)
    ensures path !in files ==> r == Err(FileNotFound(path))
    ensures r.Ok? <==> path in files && FirstMissing(ResourceModules(files[path], 0), files.Keys).None?
    ensures r.Ok? ==> r.value == files[path := PrefixResourceImports(files[path], packageName)]
    ensures r.Err? && path in files ==> r == Err(MissingResource(FirstMissing(ResourceModules(files[path], 0), files.Keys).value))
  {
    if path !in files then Err(FileNotFound(path))
    else
      match FirstMissing(ResourceModules(files[path], 0), files.Keys)
      case Some(m) => Err(MissingResource(m))
      case None => Ok(files[path := PrefixResourceImports(files[path], packageName)])
  }

  /** The file system the script works in. */
  class Workspace {
    var files: map<string, string>

    constructor(files: map<string, string>)
      ensures this.files == files
    {
      this.files := files;
    }

    /** Reads the file, checks every resource module it imports, then writes the rewritten text back. */
    method PrefixUiPythonFileResourceImports(path: string, packageName: string) returns (r: Result<(), GenError>)
      modifies this
      ensures var spec := PrefixSpec(old(files), path, packageName);
        && (r.Ok? <==> spec.Ok?)
        && (spec.Ok? ==> files == spec.value)
        && (spec.Err? ==> r.error == spec.error && files == old(files))
    {
      if path !in files {
        return Err(FileNotFound(path));
      }
      var contents := files[path];
      var modules := ResourceModules(contents, 0);
      var i := 0;
      while i < |modules|
        invariant 0 <= i <= |modules|
        invariant forall j :: 0 <= j < i ==> modules[j] + ".py" in files
      {
        if modules[i] + ".py" !in files {
          assert FirstMissing(modules, files.Keys) == Some(modules[i]) by {
            var m := FirstMissing(modules, files.Keys);
            assert m.Some?;
            var k :| 0 <= k < |modules| && modules[k] == m.value && m.value + ".py" !in files.Keys
              && forall j :: 0 <= j < k ==> modules[j] + ".py" in files.Keys;
            assert k == i;
          }
          return Err(MissingResource(modules[i]));
        }
        i := i + 1;
      }
      files := files[path := PrefixResourceImports(contents, packageName)];
      return Ok(());
    }
  }
}

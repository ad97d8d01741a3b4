/**
 * `generate_build_script` of build/build_fmu.py: the OpenModelica .mos script built from
 * the project configuration. Every piece the source appends ends in a newline, so the
 * script is modelled as its sequence of lines; Render gives back the text.
 */
module BuildScript {
  import opened Wrappers
  import opened Config

  const ErrorCheck := "getErrorString();"
  const LibraryDir := "input/src/libraries/"
  const SourceDir := "input/src/"
  const DefaultMsl := "default"
  /** The script's first line: the comment marker "// " and the text after it. */
  const Banner := "// " + "Auto-generated build script from project.yaml"

  function LoadLine(path: string): string {
    "loadFile(\"" + path + "\");"
  }

  function InstallLine(package: string, version: string): string {
    "installPackage(" + package + ", \"" + version + "\");"
  }

  // ---------------------------------------------------------------------------
  // The script, block by block

  /** Modelica (and, for a 4.x release, Complex) installed at the requested version. */
  function StandardLibraryBlock(msl: string): seq<string> {
    if msl == DefaultMsl then []
    else
      ["// Load Modelica Standard Library v" + msl, InstallLine("Modelica", msl), ErrorCheck, ""]
      + (if "4." <= msl then [InstallLine("Complex", msl), ErrorCheck, ""] else [])
  }

  function LibraryLines(lib: Library): seq<string> {
    ["// Load external library: " + lib.name, LoadLine(LibraryDir + lib.path), ErrorCheck, ""]
  }

  function LibraryBlock(libs: seq<Library>): seq<string>
    decreases |libs|
  {
    if libs == [] then [] else LibraryBlock(libs[..|libs| - 1]) + LibraryLines(libs[|libs| - 1])
  }

  function MainBlock(mainFile: string): seq<string> {
    ["// Load main model file", LoadLine(SourceDir + mainFile), ErrorCheck, ""]
  }

  function DependencyLines(deps: seq<string>): seq<string>
    decreases |deps|
  {
    if deps == [] then []
    else DependencyLines(deps[..|deps| - 1]) + [LoadLine(SourceDir + deps[|deps| - 1]), ErrorCheck]
  }

  function DependencyBlock(deps: seq<string>): seq<string> {
    DependencyLines(deps) + (if deps != [] then [""] else [])
  }

  function FmuBlock(cfg: BuildConfig): seq<string> {
    [ "// Build FMU",
      "buildModelFMU(",
      "    " + cfg.modelClass + ",",
      "    version=\"" + cfg.fmuVersion.GetOr("2.0") + "\",",
      "    fmuType=\"" + cfg.fmuType.GetOr("cs") + "\",",
      "    fileNamePrefix=\"" + cfg.outputName.GetOr("DigitalTwin") + "\",",
      "    platforms={\"" + cfg.platform.GetOr("static") + "\"}",
      ");",
      "",
      "// Print any errors",
      ErrorCheck ]
  }

  /** The whole script, in the order the source appends it. */
  function Script(cfg: BuildConfig): seq<string> {
    [Banner]
    + StandardLibraryBlock(cfg.mslVersion.GetOr(DefaultMsl))
    + LibraryBlock(cfg.libraries)
    + MainBlock(cfg.mainFile)
    + DependencyBlock(cfg.dependencies)
    + FmuBlock(cfg)
  }

  /** The text of a script: each line followed by a newline. */
  function Render(lines: seq<string>): string
    decreases |lines|
  {
    if lines == [] then "" else Render(lines[..|lines| - 1]) + lines[|lines| - 1] + "\n"
  }

  // ---------------------------------------------------------------------------
  // The generator

  /** Builds the script step by step, as `generate_build_script` does with `+=`. */
  method GenerateBuildScript(cfg: BuildConfig) returns (script: seq<string>)
    ensures script == Script(cfg)
  {
    script := [Banner];
    var msl := cfg.mslVersion.GetOr(DefaultMsl);
    if msl != DefaultMsl {
      script := script + ["// Load Modelica Standard Library v" + msl, InstallLine("Modelica", msl), ErrorCheck, ""];
      if "4." <= msl {
        script := script + [InstallLine("Complex", msl), ErrorCheck, ""];
      }
    }
    ghost var head := script;
    assert head == [Banner] + StandardLibraryBlock(msl);

    var libs := cfg.libraries;
    for i := 0 to |libs|
      invariant script == head + LibraryBlock(libs[..i])
    {
      script := script + LibraryLines(libs[i]);
      assert libs[..i + 1][..i] == libs[..i];
    }
    assert libs[..|libs|] == libs;

    script := script + MainBlock(cfg.mainFile);
    ghost var loaded := script;
    assert loaded == head + LibraryBlock(libs) + MainBlock(cfg.mainFile);

    var deps := cfg.dependencies;
    for j := 0 to |deps|
      invariant script == loaded + DependencyLines(deps[..j])
    {
      script := script + [LoadLine(SourceDir + deps[j]), ErrorCheck];
      assert deps[..j + 1][..j] == deps[..j];
    }
    assert deps[..|deps|] == deps;
    if deps != [] {
      script := script + [""];
    }
    assert script == loaded + DependencyBlock(deps);

    script := script + FmuBlock(cfg);
  }

  // ---------------------------------------------------------------------------
  // Reading a script back

  /** The text between `prefix` and `suffix` when `line` is framed by them. */
  function Unwrap(line: string, prefix: string, suffix: string): Option<string> {
    if |prefix| + |suffix| <= |line| && prefix <= line && line[|line| - |suffix|..] == suffix
    then Some(line[|prefix|..|line| - |suffix|])
    else None
  }

  lemma UnwrapWrapped(prefix: string, x: string, suffix: string)
    ensures Unwrap(prefix + x + suffix, prefix, suffix) == Some(x)
  {
    var line := prefix + x + suffix;
    assert line[..|prefix|] == prefix;
    assert line[|line| - |suffix|..] == suffix;
    assert line[|prefix|..|line| - |suffix|] == x;
  }

  /** The file a `loadFile("...");` line loads. */
  function LoadedFile(line: string): Option<string> {
    Unwrap(line, "loadFile(\"", "\");")
  }

  /** The files a script loads, in script order. */
  function LoadedFiles(lines: seq<string>): seq<string>
    decreases |lines|
  {
    if lines == [] then []
    else
      LoadedFiles(lines[..|lines| - 1])
      + (match LoadedFile(lines[|lines| - 1]) case Some(p) => [p] case None => [])
  }

  /** A line that loads a file. */
  predicate IsLoad(line: string) {
    "loadFile(" <= line
  }

  /** A line that installs a package. */
  predicate IsInstall(line: string) {
    "installPackage(" <= line
  }

  /** The `installPackage(...)` lines of a script, in script order. */
  function InstallLines(lines: seq<string>): seq<string>
    decreases |lines|
  {
    if lines == [] then []
    else
      InstallLines(lines[..|lines| - 1])
      + (if IsInstall(lines[|lines| - 1]) then [lines[|lines| - 1]] else [])
  }

  /** A line that asks OpenModelica to load or install something. */
  predicate IsCommand(line: string) {
    IsLoad(line) || IsInstall(line)
  }

  /** Every command line is immediately followed by `getErrorString();`. */
  ghost predicate ErrorChecked(lines: seq<string>) {
    forall i :: 0 <= i < |lines| && IsCommand(lines[i]) ==> i + 1 < |lines| && lines[i + 1] == ErrorCheck
  }

  /** A line that starts with neither `l` nor `i` can be no command. */
  predicate Inert(line: string) {
    line == [] || (line[0] != 'l' && line[0] != 'i')
  }

  datatype FmuCall = FmuCall(modelClass: string, version: string, fmuType: string, fileNamePrefix: string, platform: string)

  /** The `buildModelFMU(...)` call and the trailer that close a script. */
  function ReadFmuCall(lines: seq<string>): Option<FmuCall> {
    if |lines| < 11 then None
    else
      var t := lines[|lines| - 11..];
      if t[0] != "// Build FMU" || t[1] != "buildModelFMU(" || t[7] != ");" || t[8] != ""
         || t[9] != "// Print any errors" || t[10] != ErrorCheck
      then None
      else
        var modelClass :- Unwrap(t[2], "    ", ",");
        var version :- Unwrap(t[3], "    version=\"", "\",");
        var fmuType :- Unwrap(t[4], "    fmuType=\"", "\",");
        var prefix :- Unwrap(t[5], "    fileNamePrefix=\"", "\",");
        var platform :- Unwrap(t[6], "    platforms={\"", "\"}");
        Some(FmuCall(modelClass, version, fmuType, prefix, platform))
  }

  // ---------------------------------------------------------------------------
  // Lemmas about the readers

  lemma {:induction false} LoadedFilesAppend(a: seq<string>, b: seq<string>)
    ensures LoadedFiles(a + b) == LoadedFiles(a) + LoadedFiles(b)
    decreases |b|
  {
    if b == [] {
      assert a + b == a;
    } else {
      var b' := b[..|b| - 1];
      assert (a + b)[..|a + b| - 1] == a + b';
      LoadedFilesAppend(a, b');
    }
  }

  lemma {:induction false} InstallLinesAppend(a: seq<string>, b: seq<string>)
    ensures InstallLines(a + b) == InstallLines(a) + InstallLines(b)
    decreases |b|
  {
    if b == [] {
      assert a + b == a;
    } else {
      var b' := b[..|b| - 1];
      assert (a + b)[..|a + b| - 1] == a + b';
      InstallLinesAppend(a, b');
    }
  }

  lemma InertIsNoCommand(line: string)
    requires Inert(line)
    ensures !IsCommand(line) && LoadedFile(line).None?
  {
  }

  lemma {:induction false} InertLinesIssueNothing(lines: seq<string>)
    requires forall i :: 0 <= i < |lines| ==> Inert(lines[i])
    ensures LoadedFiles(lines) == [] && InstallLines(lines) == [] && ErrorChecked(lines)
    decreases |lines|
  {
    forall i | 0 <= i < |lines| ensures !IsCommand(lines[i]) {
      InertIsNoCommand(lines[i]);
    }
    if lines != [] {
      InertIsNoCommand(lines[|lines| - 1]);
      InertLinesIssueNothing(lines[..|lines| - 1]);
    }
  }

  lemma LoadLineReadsBack(path: string)
    ensures LoadedFiles([LoadLine(path)]) == [path]
    ensures InstallLines([LoadLine(path)]) == []
    ensures IsCommand(LoadLine(path))
  {
    UnwrapWrapped("loadFile(\"", path, "\");");
    var single: seq<string> := [LoadLine(path)];
    assert single[..0] == [];
    var line := LoadLine(path);
    assert line[0] == 'l';
    assert line[..9] == "loadFile(";
  }

  lemma InstallLineReadsBack(package: string, version: string)
    ensures InstallLines([InstallLine(package, version)]) == [InstallLine(package, version)]
    ensures LoadedFiles([InstallLine(package, version)]) == []
    ensures IsCommand(InstallLine(package, version))
  {
    var line := InstallLine(package, version);
    var single: seq<string> := [line];
    assert single[..0] == [];
    assert line[0] == 'i';
    assert line[..15] == "installPackage(";
  }

  lemma {:induction false} ErrorCheckedAppend(a: seq<string>, b: seq<string>)
    requires ErrorChecked(a) && ErrorChecked(b)
    ensures ErrorChecked(a + b)
  {
    var s := a + b;
    forall i | 0 <= i < |s| && IsCommand(s[i]) ensures i + 1 < |s| && s[i + 1] == ErrorCheck {
      if i < |a| {
        assert s[i] == a[i];
        assert s[i + 1] == a[i + 1];
      } else {
        assert s[i] == b[i - |a|];
        assert s[i + 1] == b[i - |a| + 1];
      }
    }
  }

  /** A block with one load line, framed by lines that are no commands, checked right after. */
  lemma FramedLoad(pre: seq<string>, path: string, post: seq<string>)
    requires forall i :: 0 <= i < |pre| ==> Inert(pre[i])
    requires forall i :: 0 <= i < |post| ==> Inert(post[i])
    requires post != [] && post[0] == ErrorCheck
    ensures LoadedFiles(pre + [LoadLine(path)] + post) == [path]
    ensures InstallLines(pre + [LoadLine(path)] + post) == []
    ensures ErrorChecked(pre + [LoadLine(path)] + post)
  {
    InertLinesIssueNothing(pre);
    InertLinesIssueNothing(post);
    LoadLineReadsBack(path);
    LoadedFilesAppend(pre, [LoadLine(path)]);
    LoadedFilesAppend(pre + [LoadLine(path)], post);
    InstallLinesAppend(pre, [LoadLine(path)]);
    InstallLinesAppend(pre + [LoadLine(path)], post);
    var s := pre + [LoadLine(path)] + post;
    forall i | 0 <= i < |s| && IsCommand(s[i]) ensures i + 1 < |s| && s[i + 1] == ErrorCheck {
      if i < |pre| {
        InertIsNoCommand(pre[i]);
      } else if i > |pre| {
        InertIsNoCommand(post[i - |pre| - 1]);
      }
    }
  }

  /** A block with one install line, framed by lines that are no commands, checked right after. */
  lemma FramedInstall(pre: seq<string>, package: string, version: string, post: seq<string>)
    requires forall i :: 0 <= i < |pre| ==> Inert(pre[i])
    requires forall i :: 0 <= i < |post| ==> Inert(post[i])
    requires post != [] && post[0] == ErrorCheck
    ensures LoadedFiles(pre + [InstallLine(package, version)] + post) == []
    ensures InstallLines(pre + [InstallLine(package, version)] + post) == [InstallLine(package, version)]
    ensures ErrorChecked(pre + [InstallLine(package, version)] + post)
  {
    var line := InstallLine(package, version);
    InertLinesIssueNothing(pre);
    InertLinesIssueNothing(post);
    InstallLineReadsBack(package, version);
    LoadedFilesAppend(pre, [line]);
    LoadedFilesAppend(pre + [line], post);
    InstallLinesAppend(pre, [line]);
    InstallLinesAppend(pre + [line], post);
    var s := pre + [line] + post;
    forall i | 0 <= i < |s| && IsCommand(s[i]) ensures i + 1 < |s| && s[i + 1] == ErrorCheck {
      if i < |pre| {
        InertIsNoCommand(pre[i]);
      } else if i > |pre| {
        InertIsNoCommand(post[i - |pre| - 1]);
      }
    }
  }

  lemma {:induction false} LibraryBlockLoads(libs: seq<Library>)
    ensures |LoadedFiles(LibraryBlock(libs))| == |libs|
    ensures forall i :: 0 <= i < |libs| ==> LoadedFiles(LibraryBlock(libs))[i] == LibraryDir + libs[i].path
    ensures InstallLines(LibraryBlock(libs)) == []
    ensures ErrorChecked(LibraryBlock(libs))
    decreases |libs|
  {
    if libs != [] {
      var init, last := libs[..|libs| - 1], libs[|libs| - 1];
      LibraryBlockLoads(init);
      var pre := ["// Load external library: " + last.name];
      assert LibraryLines(last) == pre + [LoadLine(LibraryDir + last.path)] + [ErrorCheck, ""];
      FramedLoad(pre, LibraryDir + last.path, [ErrorCheck, ""]);
      LoadedFilesAppend(LibraryBlock(init), LibraryLines(last));
      InstallLinesAppend(LibraryBlock(init), LibraryLines(last));
      ErrorCheckedAppend(LibraryBlock(init), LibraryLines(last));
      forall i | 0 <= i < |libs| - 1 ensures libs[i] == init[i] { }
    }
  }

  lemma {:induction false} DependencyLinesLoad(deps: seq<string>)
    ensures |LoadedFiles(DependencyLines(deps))| == |deps|
    ensures forall j :: 0 <= j < |deps| ==> LoadedFiles(DependencyLines(deps))[j] == SourceDir + deps[j]
    ensures InstallLines(DependencyLines(deps)) == []
    ensures ErrorChecked(DependencyLines(deps))
    ensures deps != [] ==> DependencyLines(deps)[|DependencyLines(deps)| - 1] == ErrorCheck
    decreases |deps|
  {
    if deps != [] {
      var init, last := deps[..|deps| - 1], deps[|deps| - 1];
      DependencyLinesLoad(init);
      assert [LoadLine(SourceDir + last), ErrorCheck] == [] + [LoadLine(SourceDir + last)] + [ErrorCheck];
      FramedLoad([], SourceDir + last, [ErrorCheck]);
      LoadedFilesAppend(DependencyLines(init), [LoadLine(SourceDir + last), ErrorCheck]);
      InstallLinesAppend(DependencyLines(init), [LoadLine(SourceDir + last), ErrorCheck]);
      ErrorCheckedAppend(DependencyLines(init), [LoadLine(SourceDir + last), ErrorCheck]);
    }
  }

  lemma StandardLibraryBlockInstalls(msl: string)
    ensures LoadedFiles(StandardLibraryBlock(msl)) == []
    ensures InstallLines(StandardLibraryBlock(msl)) ==
      if msl == DefaultMsl then []
      else [InstallLine("Modelica", msl)] + (if "4." <= msl then [InstallLine("Complex", msl)] else [])
    ensures ErrorChecked(StandardLibraryBlock(msl))
  {
    if msl != DefaultMsl {
      var modelica := ["// Load Modelica Standard Library v" + msl, InstallLine("Modelica", msl), ErrorCheck, ""];
      assert modelica == ["// Load Modelica Standard Library v" + msl] + [InstallLine("Modelica", msl)] + [ErrorCheck, ""];
      FramedInstall(["// Load Modelica Standard Library v" + msl], "Modelica", msl, [ErrorCheck, ""]);
      var complex: seq<string> := if "4." <= msl then [InstallLine("Complex", msl), ErrorCheck, ""] else [];
      if "4." <= msl {
        assert complex == [] + [InstallLine("Complex", msl)] + [ErrorCheck, ""];
        FramedInstall([], "Complex", msl, [ErrorCheck, ""]);
      }
      LoadedFilesAppend(modelica, complex);
      InstallLinesAppend(modelica, complex);
      ErrorCheckedAppend(modelica, complex);
    }
  }

  lemma MainBlockLoads(mainFile: string)
    ensures LoadedFiles(MainBlock(mainFile)) == [SourceDir + mainFile]
    ensures InstallLines(MainBlock(mainFile)) == []
    ensures ErrorChecked(MainBlock(mainFile))
  {
    assert MainBlock(mainFile) == ["// Load main model file"] + [LoadLine(SourceDir + mainFile)] + [ErrorCheck, ""];
    FramedLoad(["// Load main model file"], SourceDir + mainFile, [ErrorCheck, ""]);
  }

  lemma LoadedFilesAppend6(a: seq<string>, b: seq<string>, c: seq<string>, d: seq<string>, e: seq<string>, f: seq<string>)
    ensures LoadedFiles(a + b + c + d + e + f) ==
      LoadedFiles(a) + LoadedFiles(b) + LoadedFiles(c) + LoadedFiles(d) + LoadedFiles(e) + LoadedFiles(f)
  {
    LoadedFilesAppend(a, b);
    LoadedFilesAppend(a + b, c);
    LoadedFilesAppend(a + b + c, d);
    LoadedFilesAppend(a + b + c + d, e);
    LoadedFilesAppend(a + b + c + d + e, f);
  }

  lemma InstallLinesAppend6(a: seq<string>, b: seq<string>, c: seq<string>, d: seq<string>, e: seq<string>, f: seq<string>)
    ensures InstallLines(a + b + c + d + e + f) ==
      InstallLines(a) + InstallLines(b) + InstallLines(c) + InstallLines(d) + InstallLines(e) + InstallLines(f)
  {
    InstallLinesAppend(a, b);
    InstallLinesAppend(a + b, c);
    InstallLinesAppend(a + b + c, d);
    InstallLinesAppend(a + b + c + d, e);
    InstallLinesAppend(a + b + c + d + e, f);
  }

  lemma ErrorCheckedAppend6(a: seq<string>, b: seq<string>, c: seq<string>, d: seq<string>, e: seq<string>, f: seq<string>)
    requires ErrorChecked(a) && ErrorChecked(b) && ErrorChecked(c)
    requires ErrorChecked(d) && ErrorChecked(e) && ErrorChecked(f)
    ensures ErrorChecked(a + b + c + d + e + f)
  {
    ErrorCheckedAppend(a, b);
    ErrorCheckedAppend(a + b, c);
    ErrorCheckedAppend(a + b + c, d);
    ErrorCheckedAppend(a + b + c + d, e);
    ErrorCheckedAppend(a + b + c + d + e, f);
  }

  /** The script as six blocks, the dependency block split from its trailing blank line. */
  lemma ScriptBlocks(cfg: BuildConfig)
    ensures Script(cfg) ==
      [Banner] + StandardLibraryBlock(cfg.mslVersion.GetOr(DefaultMsl)) + LibraryBlock(cfg.libraries)
      + MainBlock(cfg.mainFile) + DependencyLines(cfg.dependencies)
      + ((if cfg.dependencies != [] then [""] else []) + FmuBlock(cfg))
  {
  }

  lemma TrailerInert(cfg: BuildConfig)
    ensures var trailer := (if cfg.dependencies != [] then [""] else []) + FmuBlock(cfg);
      LoadedFiles(trailer) == [] && InstallLines(trailer) == [] && ErrorChecked(trailer)
  {
    InertLinesIssueNothing((if cfg.dependencies != [] then [""] else []) + FmuBlock(cfg));
  }

  lemma BannerInert()
    ensures LoadedFiles([Banner]) == [] && InstallLines([Banner]) == [] && ErrorChecked([Banner])
  {
    assert Banner[0] == '/';
    InertLinesIssueNothing([Banner]);
  }

  lemma LoadsAmongSix(a: seq<string>, b: seq<string>, c: seq<string>, d: seq<string>, e: seq<string>, f: seq<string>, x: string)
    requires LoadedFiles(a) == [] && LoadedFiles(b) == [] && LoadedFiles(d) == [x] && LoadedFiles(f) == []
    ensures LoadedFiles(a + b + c + d + e + f) == LoadedFiles(c) + [x] + LoadedFiles(e)
  {
    LoadedFilesAppend6(a, b, c, d, e, f);
    assert [] + [] + LoadedFiles(c) + [x] + LoadedFiles(e) + [] == LoadedFiles(c) + [x] + LoadedFiles(e);
  }

  lemma InstallsAmongSix(a: seq<string>, b: seq<string>, c: seq<string>, d: seq<string>, e: seq<string>, f: seq<string>)
    requires InstallLines(a) == [] && InstallLines(c) == [] && InstallLines(d) == []
    requires InstallLines(e) == [] && InstallLines(f) == []
    ensures InstallLines(a + b + c + d + e + f) == InstallLines(b)
  {
    InstallLinesAppend6(a, b, c, d, e, f);
    assert [] + InstallLines(b) + [] + [] + [] + [] == InstallLines(b);
  }

  lemma ScriptLoads(cfg: BuildConfig)
    ensures LoadedFiles(Script(cfg)) ==
      LoadedFiles(LibraryBlock(cfg.libraries)) + [SourceDir + cfg.mainFile] + LoadedFiles(DependencyLines(cfg.dependencies))
  {
    ScriptBlocks(cfg);
    BannerInert();
    StandardLibraryBlockInstalls(cfg.mslVersion.GetOr(DefaultMsl));
    MainBlockLoads(cfg.mainFile);
    TrailerInert(cfg);
    LoadsAmongSix([Banner], StandardLibraryBlock(cfg.mslVersion.GetOr(DefaultMsl)), LibraryBlock(cfg.libraries),
      MainBlock(cfg.mainFile), DependencyLines(cfg.dependencies),
      (if cfg.dependencies != [] then [""] else []) + FmuBlock(cfg), SourceDir + cfg.mainFile);
  }

  // ---------------------------------------------------------------------------
  // What the generated script promises

  /**
   * Load order: every external library (under input/src/libraries/), then the main file,
   * then every dependency (both under input/src/), each group in configuration order.
   */
  lemma LoadOrder(cfg: BuildConfig)
    ensures var files := LoadedFiles(Script(cfg));
      && |files| == |cfg.libraries| + 1 + |cfg.dependencies|
      && (forall i :: 0 <= i < |cfg.libraries| ==> files[i] == LibraryDir + cfg.libraries[i].path)
      && files[|cfg.libraries|] == SourceDir + cfg.mainFile
      && (forall j :: 0 <= j < |cfg.dependencies| ==>
            files[|cfg.libraries| + 1 + j] == SourceDir + cfg.dependencies[j])
  {
    ScriptLoads(cfg);
    LibraryBlockLoads(cfg.libraries);
    DependencyLinesLoad(cfg.dependencies);
    var libFiles := LoadedFiles(LibraryBlock(cfg.libraries));
    var depFiles := LoadedFiles(DependencyLines(cfg.dependencies));
    var files := libFiles + [SourceDir + cfg.mainFile] + depFiles;
    assert forall i :: 0 <= i < |libFiles| ==> files[i] == libFiles[i];
    assert forall j :: 0 <= j < |depFiles| ==> files[|libFiles| + 1 + j] == depFiles[j];
  }
  /**
   * No install line unless an MSL version other than 'default' is given; then Modelica at
   * that version, and Complex at the same version exactly when it starts with "4.".
   */
  lemma StandardLibraryInstalls(cfg: BuildConfig)
    ensures var msl := cfg.mslVersion.GetOr(DefaultMsl);
      InstallLines(Script(cfg)) ==
        if msl == DefaultMsl then []
        else [InstallLine("Modelica", msl)] + (if "4." <= msl then [InstallLine("Complex", msl)] else [])
  {
    ScriptBlocks(cfg);
    BannerInert();
    StandardLibraryBlockInstalls(cfg.mslVersion.GetOr(DefaultMsl));
    LibraryBlockLoads(cfg.libraries);
    MainBlockLoads(cfg.mainFile);
    DependencyLinesLoad(cfg.dependencies);
    TrailerInert(cfg);
    InstallsAmongSix([Banner], StandardLibraryBlock(cfg.mslVersion.GetOr(DefaultMsl)), LibraryBlock(cfg.libraries),
      MainBlock(cfg.mainFile), DependencyLines(cfg.dependencies),
      (if cfg.dependencies != [] then [""] else []) + FmuBlock(cfg));
  }

  /** A script with no install line: InstallLines finds every one. */
  lemma {:induction false} NoInstallLineLeft(lines: seq<string>)
    requires InstallLines(lines) == []
    ensures forall i :: 0 <= i < |lines| ==> !IsInstall(lines[i])
    decreases |lines|
  {
    if lines != [] {
      var init := lines[..|lines| - 1];
      InstallLinesAppend(init, [lines[|lines| - 1]]);
      assert init + [lines[|lines| - 1]] == lines;
      NoInstallLineLeft(init);
      forall i | 0 <= i < |lines| - 1 ensures lines[i] == init[i] { }
    }
  }

  /** The banner and the MSL block hold no load line. */
  lemma HeadLoadsNothing(msl: string)
    ensures var head := [Banner] + StandardLibraryBlock(msl);
      forall i :: 0 <= i < |head| ==> !IsLoad(head[i])
  {
    var head := [Banner] + StandardLibraryBlock(msl);
    assert Banner[0] == '/';
    if msl != DefaultMsl {
      var comment := "// Load Modelica Standard Library v" + msl;
      assert comment[0] == '/';
      assert InstallLine("Modelica", msl)[0] == 'i';
      assert InstallLine("Complex", msl)[0] == 'i';
    }
    forall i | 0 <= i < |head| ensures !IsLoad(head[i]) {
      assert head[i] == [] || head[i][0] != 'l';
    }
  }

  /** A script made of a head without loads and a tail without installs never installs after a load. */
  lemma LoadsAfterInstalls(head: seq<string>, tail: seq<string>)
    requires forall i :: 0 <= i < |head| ==> !IsLoad(head[i])
    requires forall i :: 0 <= i < |tail| ==> !IsInstall(tail[i])
    ensures var s := head + tail;
      forall i, j :: 0 <= i < j < |s| && IsLoad(s[i]) ==> !IsInstall(s[j])
  {
    var s := head + tail;
    forall i, j | 0 <= i < j < |s| && IsLoad(s[i]) ensures !IsInstall(s[j]) {
      assert i >= |head|;
      assert s[j] == tail[j - |head|];
    }
  }

  lemma Regroup6(a: seq<string>, b: seq<string>, c: seq<string>, d: seq<string>, e: seq<string>, f: seq<string>)
    ensures a + b + c + d + e + f == (a + b) + (c + d + e + f)
  {
  }

  /** Everything after the MSL block installs nothing. */
  lemma TailInstallsNothing(cfg: BuildConfig)
    ensures var tail := LibraryBlock(cfg.libraries) + MainBlock(cfg.mainFile) + DependencyLines(cfg.dependencies)
      + ((if cfg.dependencies != [] then [""] else []) + FmuBlock(cfg));
      InstallLines(tail) == []
  {
    var trailer := (if cfg.dependencies != [] then [""] else []) + FmuBlock(cfg);
    var lib, main, deps := LibraryBlock(cfg.libraries), MainBlock(cfg.mainFile), DependencyLines(cfg.dependencies);
    LibraryBlockLoads(cfg.libraries);
    MainBlockLoads(cfg.mainFile);
    DependencyLinesLoad(cfg.dependencies);
    TrailerInert(cfg);
    InstallLinesAppend(lib, main);
    InstallLinesAppend(lib + main, deps);
    InstallLinesAppend(lib + main + deps, trailer);
  }

  /**
   * The installs come first: no `installPackage` line follows a `loadFile` line, so the
   * standard library is in place before any model file is loaded.
   */
  lemma InstallsBeforeLoads(cfg: BuildConfig)
    ensures var s := Script(cfg);
      forall i, j :: 0 <= i < j < |s| && IsLoad(s[i]) ==> !IsInstall(s[j])
  {
    var msl := cfg.mslVersion.GetOr(DefaultMsl);
    var trailer := (if cfg.dependencies != [] then [""] else []) + FmuBlock(cfg);
    var lib, main, deps := LibraryBlock(cfg.libraries), MainBlock(cfg.mainFile), DependencyLines(cfg.dependencies);
    ScriptBlocks(cfg);
    Regroup6([Banner], StandardLibraryBlock(msl), lib, main, deps, trailer);
    TailInstallsNothing(cfg);
    NoInstallLineLeft(lib + main + deps + trailer);
    HeadLoadsNothing(msl);
    LoadsAfterInstalls([Banner] + StandardLibraryBlock(msl), lib + main + deps + trailer);
  }

  /** Every `installPackage` and `loadFile` line is immediately followed by `getErrorString();`. */
  lemma EveryCommandChecked(cfg: BuildConfig)
    ensures ErrorChecked(Script(cfg))
  {
    var trailer := (if cfg.dependencies != [] then [""] else []) + FmuBlock(cfg);
    ScriptBlocks(cfg);
    BannerInert();
    StandardLibraryBlockInstalls(cfg.mslVersion.GetOr(DefaultMsl));
    LibraryBlockLoads(cfg.libraries);
    MainBlockLoads(cfg.mainFile);
    DependencyLinesLoad(cfg.dependencies);
    TrailerInert(cfg);
    ErrorCheckedAppend6([Banner], StandardLibraryBlock(cfg.mslVersion.GetOr(DefaultMsl)), LibraryBlock(cfg.libraries),
      MainBlock(cfg.mainFile), DependencyLines(cfg.dependencies), trailer);
  }

  /**
   * The script closes with the `buildModelFMU` call: the model class verbatim, the fmu keys
   * with their defaults ("2.0", "cs", "DigitalTwin", "static"), the platform in braces.
   */
  lemma FmuCallRoundTrip(cfg: BuildConfig)
    ensures ReadFmuCall(Script(cfg)) == Some(FmuCall(
      cfg.modelClass,
      cfg.fmuVersion.GetOr("2.0"),
      cfg.fmuType.GetOr("cs"),
      cfg.outputName.GetOr("DigitalTwin"),
      cfg.platform.GetOr("static")))
  {
    var s := Script(cfg);
    assert s[|s| - 11..] == FmuBlock(cfg);
    UnwrapWrapped("    ", cfg.modelClass, ",");
    UnwrapWrapped("    version=\"", cfg.fmuVersion.GetOr("2.0"), "\",");
    UnwrapWrapped("    fmuType=\"", cfg.fmuType.GetOr("cs"), "\",");
    UnwrapWrapped("    fileNamePrefix=\"", cfg.outputName.GetOr("DigitalTwin"), "\",");
    UnwrapWrapped("    platforms={\"", cfg.platform.GetOr("static"), "\"}");
  }

  /**
   * The script starts with its banner, and exactly one blank line, after the last
   * `getErrorString();` of the loads, precedes the FMU block whether or not there are
   * dependencies.
   */
  lemma ScriptFraming(cfg: BuildConfig)
    ensures var s := Script(cfg);
      && |s| >= 16
      && s[0] == Banner
      && s[|s| - 11] == "// Build FMU"
      && s[|s| - 12] == ""
      && s[|s| - 13] == ErrorCheck
  {
    var s := Script(cfg);
    var front := [Banner]
      + StandardLibraryBlock(cfg.mslVersion.GetOr(DefaultMsl))
      + LibraryBlock(cfg.libraries);
    var loads := front + MainBlock(cfg.mainFile) + DependencyBlock(cfg.dependencies);
    assert s == loads + FmuBlock(cfg);
    assert front[0] == Banner;
    assert loads[0] == front[0];
    if cfg.dependencies != [] {
      DependencyLinesLoad(cfg.dependencies);
      var d := DependencyLines(cfg.dependencies);
      assert DependencyBlock(cfg.dependencies) == d + [""];
      assert loads == (front + MainBlock(cfg.mainFile) + d) + [""];
    } else {
      assert DependencyBlock(cfg.dependencies) == [];
      assert loads == front + MainBlock(cfg.mainFile);
    }
    assert loads[|loads| - 1] == "" && loads[|loads| - 2] == ErrorCheck;
    assert s[|s| - 11] == FmuBlock(cfg)[0];
    assert s[|s| - 12] == loads[|loads| - 1];
    assert s[|s| - 13] == loads[|loads| - 2];
  }

  /** Whatever the configuration, the script text ends with "getErrorString();\n". */
  lemma ScriptTextEnding(cfg: BuildConfig)
    ensures var text := Render(Script(cfg));
      |text| >= |ErrorCheck| + 1 && text[|text| - |ErrorCheck| - 1..] == ErrorCheck + "\n"
  {
    var s := Script(cfg);
    assert s[|s| - 1] == ErrorCheck;
    var text := Render(s);
    assert text == Render(s[..|s| - 1]) + (ErrorCheck + "\n");
  }
}

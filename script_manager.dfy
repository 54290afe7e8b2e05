/**
 * Nested execute_script bookkeeping: a stack of absolute script paths, a parallel
 * stack of the scanners reading them, a file-mode flag, and the shared scanner
 * holder the input generators read from. A scanner is a value naming what it
 * reads; whether it has another line is an input.
 */
module Scripts {
  import opened Wrappers
  import opened Errors

  /** What a scanner reads: the console or a script file, by absolute path. */
  datatype Scanner = Stdin | ScriptFile(path: string)

  /** No `/` follows another. */
  predicate NoDoubleSlash(s: string)
  {
    forall i :: 0 <= i < |s| - 1 ==> !(s[i] == '/' && s[i + 1] == '/')
  }

  /** A name in the form the File constructor leaves it: no `//`, and no trailing `/` unless it is the root. */
  predicate IsNormalName(s: string)
  {
    NoDoubleSlash(s) && (|s| > 1 ==> s[|s| - 1] != '/')
  }

  /** The name with every `/` taken out; normalisation changes nothing else. */
  function WithoutSlashes(s: string): (r: string)
    ensures |r| <= |s|
  {
    if s == [] then []
    else (if s[0] == '/' then [] else [s[0]]) + WithoutSlashes(s[1..])
  }

  /** Every run of `/` in the name becomes a single `/`. */
  function CollapseSlashes(s: string): (r: string)
    ensures |r| <= |s|
    ensures s != [] ==> r != [] && r[0] == s[0] && r[|r| - 1] == s[|s| - 1]
  {
    if |s| <= 1 then s
    else if s[0] == '/' && s[1] == '/' then CollapseSlashes(s[1..])
    else [s[0]] + CollapseSlashes(s[1..])
  }

  /** After collapsing, no `/` follows another. */
  lemma {:induction false} CollapsedHasNoDoubleSlash(s: string)
    ensures NoDoubleSlash(CollapseSlashes(s))
  {
    if |s| > 1 {
      CollapsedHasNoDoubleSlash(s[1..]);
      var rest := CollapseSlashes(s[1..]);
      if s[0] == '/' && s[1] == '/' {
        assert CollapseSlashes(s) == rest;
      } else {
        var r := [s[0]] + rest;
        assert CollapseSlashes(s) == r;
        forall i | 0 <= i < |r| - 1 ensures !(r[i] == '/' && r[i + 1] == '/') {
          if i == 0 {
            assert r[1] == rest[0] == s[1];
          } else {
            assert r[i] == rest[i - 1] && r[i + 1] == rest[i];
            assert !(rest[i - 1] == '/' && rest[i] == '/');
          }
        }
      }
    }
  }

  /** Collapsing removes only `/` characters. */
  lemma {:induction false} CollapseKeepsNonSlashes(s: string)
    ensures WithoutSlashes(CollapseSlashes(s)) == WithoutSlashes(s)
  {
    if |s| > 1 {
      CollapseKeepsNonSlashes(s[1..]);
      if !(s[0] == '/' && s[1] == '/') {
        var rest := CollapseSlashes(s[1..]);
        assert ([s[0]] + rest)[1..] == rest;
      }
    }
  }

  /** Appending a `/` adds nothing once the slashes are taken out. */
  lemma {:induction false} WithoutTrailingSlash(s: string)
    ensures WithoutSlashes(s + "/") == WithoutSlashes(s)
  {
    if s != [] {
      assert (s + "/")[1..] == s[1..] + "/";
      WithoutTrailingSlash(s[1..]);
    }
  }

  /**
   * The path the File(String) constructor keeps on a Unix file system: runs of
   * `/` collapsed, and a trailing `/` dropped unless the whole name is `/`.
   * `.` and `..` are kept.
   */
  function Normalize(s: string): (r: string)
    ensures IsNormalName(r)
    ensures s != [] ==> r != [] && r[0] == s[0]
    ensures |r| <= |s|
    ensures WithoutSlashes(r) == WithoutSlashes(s)
  {
    var c := CollapseSlashes(s);
    CollapsedHasNoDoubleSlash(s);
    CollapseKeepsNonSlashes(s);
    if |c| > 1 && c[|c| - 1] == '/' then
      DropTrailingSlash(c);
      c[..|c| - 1]
    else c
  }

  /** Dropping the trailing `/` of a collapsed name leaves a name in normal form with the same other characters. */
  lemma DropTrailingSlash(c: string)
    requires NoDoubleSlash(c) && |c| > 1 && c[|c| - 1] == '/'
    ensures IsNormalName(c[..|c| - 1])
    ensures WithoutSlashes(c[..|c| - 1]) == WithoutSlashes(c)
  {
    var r := c[..|c| - 1];
    assert c == r + "/";
    WithoutTrailingSlash(r);
    forall i | 0 <= i < |r| - 1 ensures !(r[i] == '/' && r[i + 1] == '/') {
      assert r[i] == c[i] && r[i + 1] == c[i + 1];
    }
    assert r[|r| - 1] == c[|c| - 2];
  }

  /** A name without `//` is left as it is by collapsing. */
  lemma {:induction false} CollapseKeepsSingleSlashes(s: string)
    requires NoDoubleSlash(s)
    ensures CollapseSlashes(s) == s
  {
    if |s| > 1 {
      assert !(s[0] == '/' && s[1] == '/');
      forall i | 0 <= i < |s| - 2 ensures !(s[1..][i] == '/' && s[1..][i + 1] == '/') {
        assert s[1..][i] == s[i + 1] && s[1..][i + 1] == s[i + 2];
      }
      CollapseKeepsSingleSlashes(s[1..]);
      assert s == [s[0]] + s[1..];
    }
  }

  /** A name already in normal form is its own normal form, so normalising twice is normalising once. */
  lemma NormalizeKeepsNormal(s: string)
    requires IsNormalName(s)
    ensures Normalize(s) == s
    ensures Normalize(Normalize(s)) == Normalize(s)
  {
    CollapseKeepsSingleSlashes(s);
  }

  /** The working directory, a `/` and a relative name in normal form make a path in normal form. */
  lemma JoinedPathIsNormal(cwd: string, n: string)
    requires IsNormalName(cwd) && cwd != [] && cwd[0] == '/' && cwd != "/"
    requires IsNormalName(n) && n != [] && n[0] != '/'
    ensures IsNormalName(cwd + "/" + n)
  {
    var p := cwd + "/" + n;
    forall i | 0 <= i < |p| - 1 ensures !(p[i] == '/' && p[i + 1] == '/') {
      if i < |cwd| - 1 {
        assert p[i] == cwd[i] && p[i + 1] == cwd[i + 1];
      } else if i == |cwd| - 1 {
        assert p[i] == cwd[|cwd| - 1];
      } else if i == |cwd| {
        assert p[i + 1] == n[0];
      } else {
        assert p[i] == n[i - |cwd| - 1] && p[i + 1] == n[i - |cwd|];
      }
    }
  }

  /** A `/` and a relative name in normal form make a path in normal form. */
  lemma RootedPathIsNormal(n: string)
    requires IsNormalName(n) && n != [] && n[0] != '/'
    ensures IsNormalName("/" + n)
  {
    var p := "/" + n;
    forall i | 0 <= i < |p| - 1 ensures !(p[i] == '/' && p[i + 1] == '/') {
      if i > 0 {
        assert p[i] == n[i - 1] && p[i + 1] == n[i];
      }
    }
  }

  /**
   * `new File(name).getAbsolutePath()` on a Unix file system: the name is
   * normalised; an absolute name is kept, the empty name is the working
   * directory, and a relative name is appended to the working directory, with
   * no second `/` when that directory is the root.
   */
  function AbsolutePath(cwd: string, name: string): (p: string)
    ensures name == [] ==> p == cwd
    ensures name != [] && name[0] == '/' ==> p == Normalize(name)
    ensures name != [] && name[0] != '/' ==>
      p == (if cwd == "/" then cwd else cwd + "/") + Normalize(name) && |p| > |Normalize(name)|
    ensures name != [] && IsNormalName(cwd) && cwd != [] && cwd[0] == '/' ==> IsNormalName(p) && p[0] == '/'
  {
    var n := Normalize(name);
    if name == [] then cwd
    else if n[0] == '/' then n
    else if cwd == "/" then
      RootedPathIsNormal(n);
      cwd + n
    else
      if IsNormalName(cwd) && cwd != [] && cwd[0] == '/' then
        JoinedPathIsNormal(cwd, n);
        cwd + "/" + n
      else cwd + "/" + n
  }

  /** A name and its normal form name the same file. */
  lemma AbsolutePathOfNormalized(cwd: string, name: string)
    ensures AbsolutePath(cwd, Normalize(name)) == AbsolutePath(cwd, name)
  {
    NormalizeKeepsNormal(Normalize(name));
  }

  /** A trailing `/` does not change the file a name resolves to: `a.txt/` is `a.txt`. */
  lemma TrailingSlashNamesSameFile(cwd: string, name: string)
    requires IsNormalName(name) && name != [] && name != "/"
    ensures AbsolutePath(cwd, name + "/") == AbsolutePath(cwd, name)
  {
    var s := name + "/";
    forall i | 0 <= i < |s| - 1 ensures !(s[i] == '/' && s[i + 1] == '/') {
      assert s[i] == name[i];
    }
    CollapseKeepsSingleSlashes(s);
    assert s[..|s| - 1] == name;
    NormalizeKeepsNormal(name);
  }

  /**
   * Two relative names resolve to the same absolute path exactly when their
   * normal forms agree; in particular, distinct names in normal form resolve
   * to distinct paths.
   */
  lemma AbsolutePathInjectiveOnRelativeNames(cwd: string, a: string, b: string)
    requires a != [] && a[0] != '/' && b != [] && b[0] != '/'
    ensures AbsolutePath(cwd, a) == AbsolutePath(cwd, b) <==> Normalize(a) == Normalize(b)
    ensures IsNormalName(a) && IsNormalName(b) ==> (AbsolutePath(cwd, a) == AbsolutePath(cwd, b) ==> a == b)
  {
    var prefix := if cwd == "/" then cwd else cwd + "/";
    if AbsolutePath(cwd, a) == AbsolutePath(cwd, b) {
      var k := |prefix|;
      assert Normalize(a) == AbsolutePath(cwd, a)[k..];
      assert Normalize(b) == AbsolutePath(cwd, b)[k..];
    }
    if IsNormalName(a) && IsNormalName(b) {
      NormalizeKeepsNormal(a);
      NormalizeKeepsNormal(b);
    }
  }

  /** java.util.Stack.pop on an empty stack. */
  const EmptyStackError := Error(EmptyStack, "")

  class ScannerManager {
    var scanner: Scanner

    constructor (scanner: Scanner)
      ensures this.scanner == scanner
    {
      this.scanner := scanner;
    }

    method SetScanner(scanner: Scanner)
      modifies this
      ensures this.scanner == scanner
    {
      this.scanner := scanner;
    }
  }

  class ScriptManager {
    var fileNames: seq<string>
    var scanners: seq<Scanner>
    var fileMode: bool
    const scannerManager: ScannerManager
    /** The directory relative script names resolve against. */
    const cwd: string

    /** The two stacks stay in step: the i-th scanner reads the i-th script. */
    ghost predicate Valid()
      reads this
    {
      |fileNames| == |scanners| && forall i :: 0 <= i < |scanners| ==> scanners[i] == ScriptFile(fileNames[i])
    }

    constructor (scannerManager: ScannerManager, cwd: string)
      ensures fileNames == [] && scanners == [] && !fileMode
      ensures this.scannerManager == scannerManager && this.cwd == cwd
      ensures Valid()
    {
      fileNames := [];
      scanners := [];
      fileMode := false;
      this.scannerManager := scannerManager;
      this.cwd := cwd;
    }

    /** A script is recursive when its absolute path is already on the stack. */
    predicate IsRecursive(fileName: string)
      reads this
    {
      AbsolutePath(cwd, fileName) in fileNames
    }

    /** In a consistent state a script counts as recursive exactly when a scanner is reading it. */
    lemma RecursiveIffBeingRead(fileName: string)
      requires Valid()
      ensures IsRecursive(fileName) <==> ScriptFile(AbsolutePath(cwd, fileName)) in scanners
    {
      var p := AbsolutePath(cwd, fileName);
      if IsRecursive(fileName) {
        var i :| 0 <= i < |fileNames| && fileNames[i] == p;
        assert scanners[i] == ScriptFile(p);
      }
      if ScriptFile(p) in scanners {
        var i :| 0 <= i < |scanners| && scanners[i] == ScriptFile(p);
        assert fileNames[i] == p;
      }
    }

    /** While `a.txt` runs, `execute_script a.txt/` is recursive too: both resolve to the same path. */
    lemma RecursiveIgnoresTrailingSlash(fileName: string)
      requires IsNormalName(fileName) && fileName != [] && fileName != "/"
      ensures IsRecursive(fileName + "/") <==> IsRecursive(fileName)
    {
      TrailingSlashNamesSameFile(cwd, fileName);
    }

    /**
     * addPath as written: the path is pushed first, and only then is the file
     * opened, so a missing file leaves its path on the stack with no scanner.
     */
    method AddPathAsWritten(fileName: string, opens: bool) returns (r: Result<(), Error>)
      modifies this
      ensures fileNames == old(fileNames) + [AbsolutePath(cwd, fileName)]
      ensures opens ==> r.Success? && scanners == old(scanners) + [ScriptFile(AbsolutePath(cwd, fileName))]
      ensures !opens ==> r == Failure(Error(FileNotFound, fileName)) && scanners == old(scanners)
      ensures fileMode == old(fileMode)
    {
      fileNames := fileNames + [AbsolutePath(cwd, fileName)];
      if !opens {
        return Failure(Error(FileNotFound, fileName));
      }
      scanners := scanners + [ScriptFile(AbsolutePath(cwd, fileName))];
      r := Success(());
    }

    /**
     * A script that cannot be opened stays "recursive" after addPath as written
     * throws, and the stacks fall out of step.
     */
    method MissingScriptStaysOnStack(fileName: string) returns (r: Result<(), Error>)
      requires Valid()
      modifies this
      ensures r.Failure? && IsRecursive(fileName) && !Valid()
      ensures |fileNames| == |scanners| + 1
    {
      r := AddPathAsWritten(fileName, false);
    }

    /** addPath with the file opened before anything is pushed: a missing file changes nothing. */
    method AddPath(fileName: string, opens: bool) returns (r: Result<(), Error>)
      requires Valid()
      modifies this
      ensures Valid()
      ensures opens ==> r.Success? && fileNames == old(fileNames) + [AbsolutePath(cwd, fileName)]
      ensures opens ==> scanners == old(scanners) + [ScriptFile(AbsolutePath(cwd, fileName))]
      ensures !opens ==> r == Failure(Error(FileNotFound, fileName))
      ensures !opens ==> fileNames == old(fileNames) && scanners == old(scanners)
      ensures r.Success? <==> opens
      ensures r.Success? ==> IsRecursive(fileName)
      ensures fileMode == old(fileMode)
    {
      if !opens {
        return Failure(Error(FileNotFound, fileName));
      }
      fileNames := fileNames + [AbsolutePath(cwd, fileName)];
      scanners := scanners + [ScriptFile(AbsolutePath(cwd, fileName))];
      r := Success(());
    }

    /** Pops both stacks; each pop on an empty stack throws EmptyStackException. */
    method RemovePath() returns (r: Result<(), Error>)
      modifies this
      ensures old(fileNames) == [] ==> r == Failure(EmptyStackError) && fileNames == [] && scanners == old(scanners)
      ensures old(fileNames) != [] ==> fileNames == old(fileNames)[..|old(fileNames)| - 1]
      ensures old(fileNames) != [] && old(scanners) == [] ==> r == Failure(EmptyStackError) && scanners == []
      ensures old(fileNames) != [] && old(scanners) != [] ==>
        r.Success? && scanners == old(scanners)[..|old(scanners)| - 1]
      ensures old(Valid()) ==> Valid() && (r.Success? <==> old(fileNames) != [])
      ensures fileMode == old(fileMode)
    {
      if fileNames == [] {
        return Failure(EmptyStackError);
      }
      fileNames := fileNames[..|fileNames| - 1];
      if scanners == [] {
        return Failure(EmptyStackError);
      }
      scanners := scanners[..|scanners| - 1];
      r := Success(());
    }

    /** removePath undoes a successful addPath. */
    method AddThenRemoveRestores(fileName: string)
      requires Valid()
      modifies this
      ensures Valid()
      ensures fileNames == old(fileNames) && scanners == old(scanners) && fileMode == old(fileMode)
    {
      var added := AddPath(fileName, true);
      var removed := RemovePath();
      assert old(fileNames) + [AbsolutePath(cwd, fileName)] == fileNames + [AbsolutePath(cwd, fileName)];
    }

    method ActivateFileMode()
      modifies this
      ensures fileMode
      ensures fileNames == old(fileNames) && scanners == old(scanners)
    {
      fileMode := true;
    }

    method DeactivateFileMode()
      modifies this
      ensures !fileMode
      ensures fileNames == old(fileNames) && scanners == old(scanners)
    {
      fileMode := false;
    }

    /**
     * Before each generated field: in file mode, read from the top script, or,
     * when it has no line left, drop it and fall back to the one below it or, at
     * the bottom, to the console and out of file mode; outside file mode, read
     * from the console. `topHasNextLine` is whether the top scanner has a line.
     */
    method ScriptCheck(topHasNextLine: bool) returns (r: Result<(), Error>)
      modifies this, scannerManager
      ensures !old(fileMode) ==> r.Success? && scannerManager.scanner == Stdin && !fileMode
      ensures !old(fileMode) ==> fileNames == old(fileNames) && scanners == old(scanners)
      ensures old(fileMode) && old(scanners) != [] && topHasNextLine ==>
        && r.Success? && fileMode && fileNames == old(fileNames) && scanners == old(scanners)
        && scannerManager.scanner == scanners[|scanners| - 1]
      ensures old(fileMode) && old(scanners) != [] && !topHasNextLine && old(fileNames) != [] ==>
        && r.Success?
        && fileNames == old(fileNames)[..|old(fileNames)| - 1] && scanners == old(scanners)[..|old(scanners)| - 1]
        && (scanners == [] ==> scannerManager.scanner == Stdin && !fileMode)
        && (scanners != [] ==> scannerManager.scanner == scanners[|scanners| - 1] && fileMode)
      ensures old(fileMode) && old(scanners) == [] ==> r == Failure(EmptyStackError)
      ensures r.Failure? ==> r.error == EmptyStackError && old(fileMode) && (old(scanners) == [] || old(fileNames) == [])
      ensures r.Failure? ==>
        && fileMode && scanners == old(scanners)
        && fileNames == (if old(fileNames) == [] then [] else old(fileNames)[..|old(fileNames)| - 1])
        && scannerManager.scanner == (if old(scanners) == [] then old(scannerManager.scanner) else old(scanners)[|old(scanners)| - 1])
      ensures old(Valid()) ==> Valid()
    {
      if fileMode {
        var exhausted := true;
        if scanners != [] {
          scannerManager.SetScanner(scanners[|scanners| - 1]);
          exhausted := !topHasNextLine;
        }
        if exhausted {
          r := RemovePath();
          if r.Failure? {
            return;
          }
          if scanners == [] {
            scannerManager.SetScanner(Stdin);
            DeactivateFileMode();
          } else {
            scannerManager.SetScanner(scanners[|scanners| - 1]);
          }
        } else {
          r := Success(());
        }
      } else {
        scannerManager.SetScanner(Stdin);
        DeactivateFileMode();
        r := Success(());
      }
    }
  }
}

/**
 * security-check.js: the `SecurityChecker` class. The file system, git,
 * the platform and `package.json` are a `Workspace` given as input; each
 * check's findings are a function of it, and each method appends exactly
 * those findings to the checker's three lists.
 */
module SecurityCheck {
  import opened Wrappers
  import opened Text
  import opened SecurityReport

  /** What `execSync` yields: `require` or the outer call throws, `git rev-parse` fails, or the repository's `git ls-files .env` output (None when that call throws). */
  datatype GitProbe = GitUnavailable | NotRepo | Repo(lsFiles: Option<string>)

  /** `JSON.parse` of package.json: it throws, or yields the two dependency objects (None when absent). */
  datatype Manifest =
    | Unparseable
    | Parsed(dependencies: Option<map<string, string>>, devDependencies: Option<map<string, string>>)

  /**
   * The inputs of a run: the paths `fs.existsSync` reports, the text of
   * .gitignore and .env, the git probe, `process.platform`, the `mode` of
   * .env's `fs.statSync` (None when it throws), and package.json.
   */
  datatype Workspace = Workspace(
    files: set<string>,
    gitignore: string,
    env: string,
    git: GitProbe,
    platform: string,
    envMode: Option<nat>,
    manifest: Manifest)

  const RequiredPatterns: seq<string> := [".env", "*.log", "*.db", "node_modules/"]
  const RequiredVars: seq<string> := ["TENANT_ID", "CLIENT_ID", "CLIENT_SECRET", "POWER_BI_USERNAME", "POWER_BI_PASSWORD"]
  const ExampleValues: seq<string> := ["your-tenant-id", "your-client-id", "your-client-secret", "your-powerbi-username", "your-powerbi-password"]
  const SecurityPackages: seq<string> := ["helmet", "express-rate-limit", "express-validator", "winston", "dotenv"]

  /** `parseInt('600', 8)`. */
  const MaxEnvPermissions: nat := 6 * 64

  // ---------------------------------------------------------------------------
  // checkFileExists

  /** The one finding of `checkFileExists(path, critical)`. */
  function FileEntry(path: string, present: bool, critical: bool): (e: Entry)
    ensures e.level == Error <==> !present && critical
    ensures e.level == Warning <==> !present && !critical
    ensures e.level == Passed <==> present
  {
    var message := path + (if present then " existe" else " NO existe");
    if !present && critical then Entry(Error, message)
    else if !present then Entry(Warning, message)
    else Entry(Passed, message)
  }

  // ---------------------------------------------------------------------------
  // checkGitignore

  function PatternEntry(content: string, pattern: string): Entry {
    if Contains(content, pattern) then Entry(Passed, "Patrón " + pattern + " encontrado en .gitignore")
    else Entry(Error, "Patrón " + pattern + " falta en .gitignore")
  }

  function PatternEntries(content: string, patterns: seq<string>): (es: seq<Entry>)
    ensures |es| == |patterns|
  {
    seq(|patterns|, i requires 0 <= i < |patterns| => PatternEntry(content, patterns[i]))
  }

  /** `checkGitignore`'s findings and its result. */
  function GitignoreFindings(ws: Workspace): (seq<Entry>, bool) {
    if ".gitignore" !in ws.files then ([FileEntry(".gitignore", false, true)], false)
    else ([FileEntry(".gitignore", true, true)] + PatternEntries(ws.gitignore, RequiredPatterns), true)
  }

  // ---------------------------------------------------------------------------
  // checkEnvFiles, checkEnvVariables

  /** The line terminators of JavaScript regular expressions, where `^` and `$` match in multiline mode. */
  predicate LineTerminator(c: char) {
    c == '\n' || c == '\r' || c == '\U{2028}' || c == '\U{2029}'
  }

  /** The lines of a text, split at every line terminator. */
  function Lines(s: string): (ls: seq<string>)
    decreases |s|
    ensures |ls| >= 1
  {
    if s == [] then [""]
    else if LineTerminator(s[0]) then [""] + Lines(s[1..])
    else var rest := Lines(s[1..]); [[s[0]] + rest[0]] + rest[1..]
  }

  /** A line matched by `^NAME=.+$`: the name, `=`, and at least one more character. */
  predicate DefinesVar(line: string, name: string) {
    |line| > |name| + 1 && line[..|name| + 1] == name + "="
  }

  /**
   * Where `envContent.match(pattern)?.[0]` comes from: the index of the first
   * line that defines `name`, and None when `pattern.test` fails.
   */
  function FirstDefinition(lines: seq<string>, name: string): (r: Option<nat>)
    ensures r.Some? ==> r.value < |lines| && DefinesVar(lines[r.value], name)
    ensures r.Some? ==> forall j :: 0 <= j < r.value ==> !DefinesVar(lines[j], name)
    ensures r.None? <==> forall i :: 0 <= i < |lines| ==> !DefinesVar(lines[i], name)
  {
    if lines == [] then None
    else if DefinesVar(lines[0], name) then Some(0)
    else
      var r := FirstDefinition(lines[1..], name);
      assert forall i :: 1 <= i < |lines| ==> lines[i] == lines[1..][i - 1];
      if r.Some? then Some(r.value + 1) else None
  }

  /** Line `i` defines `name`, and no line before it does. */
  ghost predicate IsFirstDefinition(lines: seq<string>, name: string, i: nat)
    requires i < |lines|
  {
    DefinesVar(lines[i], name) && forall j :: 0 <= j < i ==> !DefinesVar(lines[j], name)
  }

  /** `examplePatterns.some(example => line.toLowerCase().includes(example))`. */
  predicate HasExampleValue(line: string) {
    exists example | example in ExampleValues :: Contains(Lower(line), example)
  }

  /** Example values are found whatever the case of the line: lower-casing it first changes nothing. */
  lemma ExampleValueIgnoresCase(line: string)
    ensures HasExampleValue(Lower(line)) <==> HasExampleValue(line)
  {
    LowerIsLower(line);
  }

  function EnvVarEntry(env: string, name: string): Entry {
    match FirstDefinition(Lines(env), name)
    case None => Entry(Error, name + " falta en .env")
    case Some(i) =>
      if HasExampleValue(Lines(env)[i]) then Entry(Warning, name + " tiene valor de ejemplo")
      else Entry(Passed, name + " configurado")
  }

  function EnvVarEntries(env: string, names: seq<string>): (es: seq<Entry>)
    ensures |es| == |names|
  {
    seq(|names|, i requires 0 <= i < |names| => EnvVarEntry(env, names[i]))
  }

  /** `checkEnvFiles`'s findings: both files, then the variables when .env exists. */
  function EnvFileFindings(ws: Workspace): seq<Entry> {
    [FileEntry(".env.example", ".env.example" in ws.files, true), FileEntry(".env", ".env" in ws.files, false)]
      + (if ".env" in ws.files then EnvVarEntries(ws.env, RequiredVars) else [])
  }

  // ---------------------------------------------------------------------------
  // checkGitStatus

  /** The characters `String.prototype.trim` removes. */
  predicate JsWhitespace(c: char) {
    || c == ' ' || c == '\t' || c == '\n' || c == '\r' || c == '\U{000B}' || c == '\U{000C}'
    || c == '\U{00A0}' || c == '\U{1680}' || ('\U{2000}' <= c <= '\U{200A}')
    || c == '\U{2028}' || c == '\U{2029}' || c == '\U{202F}' || c == '\U{205F}'
    || c == '\U{3000}' || c == '\U{FEFF}'
  }

  /** `s.trim()` is empty. */
  predicate Blank(s: string) {
    forall i | 0 <= i < |s| :: JsWhitespace(s[i])
  }

  function GitFindings(ws: Workspace): seq<Entry> {
    match ws.git
    case GitUnavailable => [Entry(Warning, "No se pudo verificar Git")]
    case NotRepo => [Entry(Warning, "No es un repositorio Git")]
    case Repo(ls) =>
      if ls.Some? && !Blank(ls.value) then [Entry(Error, ".env está siendo rastreado por Git")]
      else [Entry(Passed, ".env NO está en Git")]
  }

  // ---------------------------------------------------------------------------
  // checkFilePermissions

  /** `stats.mode & parseInt('777', 8)`: on a non-negative mode, the low nine bits. */
  function PermissionBits(mode: nat): (bits: nat)
    ensures bits < 512
  {
    mode % 512
  }

  function PermissionFindings(ws: Workspace): seq<Entry> {
    if ws.platform == "win32" || ".env" !in ws.files then []
    else match ws.envMode
      case None => [Entry(Warning, "No se pudieron verificar permisos")]
      case Some(m) =>
        if PermissionBits(m) <= MaxEnvPermissions then [Entry(Passed, "Permisos de .env correctos")]
        else [Entry(Warning, "Permisos de .env muy permisivos")]
  }

  // ---------------------------------------------------------------------------
  // checkDependencies

  /** `packageJson.dependencies?.[pkg]` is truthy. */
  predicate Declared(deps: Option<map<string, string>>, pkg: string) {
    deps.Some? && pkg in deps.value && deps.value[pkg] != ""
  }

  function PackageEntry(deps: Option<map<string, string>>, devDeps: Option<map<string, string>>, pkg: string): Entry {
    if Declared(deps, pkg) || Declared(devDeps, pkg) then Entry(Passed, "Dependencia " + pkg + " encontrada")
    else Entry(Warning, "Dependencia " + pkg + " no encontrada")
  }

  function PackageEntries(deps: Option<map<string, string>>, devDeps: Option<map<string, string>>, pkgs: seq<string>): (es: seq<Entry>)
    ensures |es| == |pkgs|
  {
    seq(|pkgs|, i requires 0 <= i < |pkgs| => PackageEntry(deps, devDeps, pkgs[i]))
  }

  /** `checkDependencies`'s findings; None when `JSON.parse` throws, which nothing catches. */
  function DependencyFindings(ws: Workspace): Option<seq<Entry>> {
    if "package.json" !in ws.files then Some([Entry(Error, "package.json no encontrado")])
    else match ws.manifest
      case Unparseable => None
      case Parsed(deps, devDeps) => Some(PackageEntries(deps, devDeps, SecurityPackages))
  }

  // ---------------------------------------------------------------------------
  // run

  datatype RunOutcome = Completed(passed: bool) | Threw

  /** The findings of the four checks `run` makes before `checkDependencies`. */
  function EarlyFindings(ws: Workspace): seq<Entry> {
    GitignoreFindings(ws).0 + EnvFileFindings(ws) + GitFindings(ws) + PermissionFindings(ws)
  }

  /** `run`: the checks in order, then `generateReport`'s verdict; the lists afterwards. */
  function RunChecks(r: Report, ws: Workspace): (RunOutcome, Report) {
    var early := RecordAll(r, EarlyFindings(ws));
    match DependencyFindings(ws)
    case None => (Threw, early)
    case Some(ds) => var all := RecordAll(early, ds); (Completed(all.errors == []), all)
  }

  /** `process.exit(passed ? 0 : 1)`; an uncaught exception also ends the process with 1. */
  function ExitCode(o: RunOutcome): int {
    match o
    case Completed(passed) => if passed then 0 else 1
    case Threw => 1
  }

  lemma RecordOne(r: Report, e: Entry)
    ensures RecordAll(r, [e]) == Record(r, e)
  {
    assert [e][..0] == [];
  }

  lemma RecordSnoc(r: Report, es: seq<Entry>, e: Entry)
    ensures RecordAll(r, es + [e]) == Record(RecordAll(r, es), e)
  {
    assert (es + [e])[..|es|] == es;
  }

  // ---------------------------------------------------------------------------
  // Properties of the checks

  /** No finding is an error. */
  ghost predicate NoError(es: seq<Entry>) {
    forall i :: 0 <= i < |es| ==> es[i].level != Error
  }

  lemma NoErrorConcat(a: seq<Entry>, b: seq<Entry>)
    ensures NoError(a + b) <==> NoError(a) && NoError(b)
  {
    if NoError(a) && NoError(b) {
      forall i | 0 <= i < |a + b| ensures (a + b)[i].level != Error {
        if i >= |a| { assert (a + b)[i] == b[i - |a|]; }
      }
    }
    if NoError(a + b) {
      forall i | 0 <= i < |a| ensures a[i].level != Error {
        assert (a + b)[i] == a[i];
      }
      forall i | 0 <= i < |b| ensures b[i].level != Error {
        assert (a + b)[|a| + i] == b[i];
      }
    }
  }

  /**
   * `checkGitignore`: a missing .gitignore is one error and no pattern is
   * checked; otherwise one finding per required pattern follows, passed
   * exactly when the content contains the pattern and an error otherwise,
   * and the result is true.
   */
  lemma GitignoreClassified(ws: Workspace)
    ensures var (es, ok) := GitignoreFindings(ws);
      && (ok <==> ".gitignore" in ws.files)
      && (!ok ==> es == [Entry(Error, ".gitignore NO existe")])
      && (ok ==> (
            && |es| == 1 + |RequiredPatterns| && es[0] == Entry(Passed, ".gitignore existe")
            && forall i :: 0 <= i < |RequiredPatterns| ==>
                 && (es[1 + i].level == Passed <==> Contains(ws.gitignore, RequiredPatterns[i]))
                 && (es[1 + i].level == Error <==> !Contains(ws.gitignore, RequiredPatterns[i]))))
  {
    assert ".gitignore" + " NO existe" == ".gitignore NO existe";
    assert ".gitignore" + " existe" == ".gitignore existe";
  }

  /**
   * `checkEnvFiles`: a missing .env.example is an error, a missing .env a
   * warning, and the variables are checked (one finding each) only when
   * .env exists.
   */
  lemma EnvFilesClassified(ws: Workspace)
    ensures var es := EnvFileFindings(ws);
      && (es[0].level == Error <==> ".env.example" !in ws.files)
      && (es[1].level == Warning <==> ".env" !in ws.files)
      && |es| == (if ".env" in ws.files then 2 + |RequiredVars| else 2)
  {
  }

  /**
   * A variable is an error exactly when no line of .env is `NAME=` followed by
   * at least one character. Otherwise the first such line decides: a warning
   * exactly when, lower-cased, it contains an example value, passed otherwise.
   */
  lemma EnvVarErrorIff(env: string, name: string)
    ensures EnvVarEntry(env, name).level == Error <==> forall l | l in Lines(env) :: !DefinesVar(l, name)
    ensures EnvVarEntry(env, name).level == Warning <==>
      exists i :: 0 <= i < |Lines(env)| && IsFirstDefinition(Lines(env), name, i) && HasExampleValue(Lines(env)[i])
    ensures EnvVarEntry(env, name).level == Passed <==>
      exists i :: 0 <= i < |Lines(env)| && IsFirstDefinition(Lines(env), name, i) && !HasExampleValue(Lines(env)[i])
  {
    var ls := Lines(env);
    var r := FirstDefinition(ls, name);
    if r.None? {
      forall l | l in ls ensures !DefinesVar(l, name) {
        var i :| 0 <= i < |ls| && ls[i] == l;
      }
    } else {
      assert IsFirstDefinition(ls, name, r.value);
      forall i | 0 <= i < |ls| && IsFirstDefinition(ls, name, i) ensures i == r.value {
      }
    }
  }

  /** A text that starts with a terminated line splits into that line and the lines of the rest. */
  lemma {:induction false} LinesOfTerminated(line: string, c: char, rest: string)
    requires forall i :: 0 <= i < |line| ==> !LineTerminator(line[i])
    requires LineTerminator(c)
    decreases |line|
    ensures Lines(line + [c] + rest) == [line] + Lines(rest)
  {
    var s := line + [c] + rest;
    if line == [] {
      assert s == [c] + rest;
      assert s[1..] == rest;
    } else {
      assert s[1..] == line[1..] + [c] + rest;
      LinesOfTerminated(line[1..], c, rest);
      assert [line[0]] + line[1..] == line;
    }
  }

  /**
   * A .env whose first line is `NAME=value`, with a non-empty value, defines
   * `NAME`: its finding is not an error, and it is passed unless the line,
   * lower-cased, contains one of the example values.
   */
  lemma {:induction false} EnvVarDefinedOnFirstLine(name: string, value: string, rest: string)
    requires |value| >= 1
    requires forall i :: 0 <= i < |name + "=" + value| ==> !LineTerminator((name + "=" + value)[i])
    ensures EnvVarEntry(name + "=" + value + "\n" + rest, name).level != Error
    ensures EnvVarEntry(name + "=" + value + "\n" + rest, name).level == Passed <==> !HasExampleValue(name + "=" + value)
  {
    var line := name + "=" + value;
    LinesOfTerminated(line, '\n', rest);
    assert name + "=" + value + "\n" + rest == line + ['\n'] + rest;
    assert line[..|name| + 1] == name + "=";
    assert DefinesVar(line, name);
  }

  /** `.env`'s owner permission digit, `(mode >> 6) & 7`. */
  function OwnerDigit(mode: nat): nat {
    (mode / 64) % 8
  }

  /**
   * The permission rule compares the nine bits as one number against 0o600:
   * it passes exactly when the owner digit is below 6, whatever the group and
   * other bits are (0o066 passes), or when the bits are exactly 0o600 (0o640,
   * which only lets the group read, does not pass).
   */
  lemma PermissionThreshold(mode: nat)
    ensures PermissionBits(mode) <= MaxEnvPermissions <==> OwnerDigit(mode) < 6 || PermissionBits(mode) == MaxEnvPermissions
  {
    var b := mode % 512;
    var o := b / 64;
    var rem := b % 64;
    assert b == 64 * o + rem;
    assert (mode / 64) % 8 == o by {
      assert mode == 512 * (mode / 512) + b;
      assert mode == 64 * (8 * (mode / 512) + o) + rem;
      assert mode / 64 == 8 * (mode / 512) + o;
    }
  }

  /** `checkFilePermissions` never records an error; it records nothing on win32 or without .env. */
  lemma PermissionsNeverError(ws: Workspace)
    ensures NoError(PermissionFindings(ws))
    ensures PermissionFindings(ws) == [] <==> ws.platform == "win32" || ".env" !in ws.files
    ensures ws.platform != "win32" && ".env" in ws.files && ws.envMode.Some? ==>
      (PermissionFindings(ws)[0].level == Passed <==> PermissionBits(ws.envMode.value) <= MaxEnvPermissions)
  {
  }

  /**
   * `checkDependencies`: a missing package.json is its only error; otherwise
   * one finding per security package, passed exactly when either dependency
   * object declares it with a non-empty value, else a warning.
   */
  lemma DependenciesClassified(ws: Workspace)
    ensures "package.json" !in ws.files ==> DependencyFindings(ws) == Some([Entry(Error, "package.json no encontrado")])
    ensures "package.json" in ws.files && ws.manifest.Parsed? ==>
      var es := DependencyFindings(ws).value; var m := ws.manifest;
      && NoError(es) && |es| == |SecurityPackages|
      && forall i :: 0 <= i < |SecurityPackages| ==>
           (es[i].level == Passed <==> Declared(m.dependencies, SecurityPackages[i]) || Declared(m.devDependencies, SecurityPackages[i]))
  {
  }

  /** The workspaces on which `run` reports no critical error. */
  ghost predicate Clean(ws: Workspace) {
    && ".gitignore" in ws.files
    && (forall i :: 0 <= i < |RequiredPatterns| ==> Contains(ws.gitignore, RequiredPatterns[i]))
    && ".env.example" in ws.files
    && (".env" in ws.files ==> forall i :: 0 <= i < |RequiredVars| ==> FirstDefinition(Lines(ws.env), RequiredVars[i]).Some?)
    && !(ws.git.Repo? && ws.git.lsFiles.Some? && !Blank(ws.git.lsFiles.value))
    && "package.json" in ws.files
    && ws.manifest.Parsed?
  }

  lemma GitignoreErrorFree(ws: Workspace)
    ensures NoError(GitignoreFindings(ws).0)
        <==> ".gitignore" in ws.files && forall i :: 0 <= i < |RequiredPatterns| ==> Contains(ws.gitignore, RequiredPatterns[i])
  {
    var g := GitignoreFindings(ws).0;
    GitignoreClassified(ws);
    if ".gitignore" !in ws.files {
      assert g[0].level == Error;
    }
    if ".gitignore" in ws.files && NoError(g) {
      forall i | 0 <= i < |RequiredPatterns| ensures Contains(ws.gitignore, RequiredPatterns[i]) {
        assert g[1 + i].level != Error;
      }
    }
    if ".gitignore" in ws.files && forall i :: 0 <= i < |RequiredPatterns| ==> Contains(ws.gitignore, RequiredPatterns[i]) {
      forall i | 0 <= i < |g| ensures g[i].level != Error {
        if i >= 1 { assert g[i] == PatternEntry(ws.gitignore, RequiredPatterns[i - 1]); }
      }
    }
  }

  /** The variable findings hold no error exactly when every name has a defining line. */
  lemma VarsErrorFree(env: string, names: seq<string>)
    ensures NoError(EnvVarEntries(env, names))
        <==> forall i :: 0 <= i < |names| ==> FirstDefinition(Lines(env), names[i]).Some?
  {
    var vs := EnvVarEntries(env, names);
    forall i | 0 <= i < |names|
      ensures vs[i].level == Error <==> FirstDefinition(Lines(env), names[i]).None?
    {
      assert vs[i] == EnvVarEntry(env, names[i]);
    }
  }

  lemma EnvErrorFree(ws: Workspace)
    ensures NoError(EnvFileFindings(ws))
        <==> ".env.example" in ws.files
             && (".env" in ws.files ==> forall i :: 0 <= i < |RequiredVars| ==> FirstDefinition(Lines(ws.env), RequiredVars[i]).Some?)
  {
    var files := [FileEntry(".env.example", ".env.example" in ws.files, true), FileEntry(".env", ".env" in ws.files, false)];
    var vs := if ".env" in ws.files then EnvVarEntries(ws.env, RequiredVars) else [];
    assert EnvFileFindings(ws) == files + vs;
    NoErrorConcat(files, vs);
    assert NoError(files) <==> ".env.example" in ws.files by {
      assert files[0].level == Error <==> ".env.example" !in ws.files;
      assert files[1].level != Error;
    }
    if ".env" in ws.files {
      VarsErrorFree(ws.env, RequiredVars);
    }
  }

  /** `checkGitStatus` records an error exactly when git tracks .env. */
  lemma GitErrorFree(ws: Workspace)
    ensures |GitFindings(ws)| == 1
    ensures NoError(GitFindings(ws)) <==> !(ws.git.Repo? && ws.git.lsFiles.Some? && !Blank(ws.git.lsFiles.value))
  {
    assert GitFindings(ws)[0].level == Error <==> ws.git.Repo? && ws.git.lsFiles.Some? && !Blank(ws.git.lsFiles.value);
  }

  /** The findings before `checkDependencies` are error-free exactly on a clean workspace. */
  lemma {:induction false} EarlyErrorFree(ws: Workspace)
    ensures NoError(EarlyFindings(ws)) <==>
      && ".gitignore" in ws.files
      && (forall i :: 0 <= i < |RequiredPatterns| ==> Contains(ws.gitignore, RequiredPatterns[i]))
      && ".env.example" in ws.files
      && (".env" in ws.files ==> forall i :: 0 <= i < |RequiredVars| ==> FirstDefinition(Lines(ws.env), RequiredVars[i]).Some?)
      && !(ws.git.Repo? && ws.git.lsFiles.Some? && !Blank(ws.git.lsFiles.value))
  {
    var g, e, s, p := GitignoreFindings(ws).0, EnvFileFindings(ws), GitFindings(ws), PermissionFindings(ws);
    NoErrorConcat(g, e);
    NoErrorConcat(g + e, s);
    NoErrorConcat(g + e + s, p);
    assert EarlyFindings(ws) == g + e + s + p;
    GitignoreErrorFree(ws);
    EnvErrorFree(ws);
    PermissionsNeverError(ws);
    GitErrorFree(ws);
  }

  /**
   * A fresh checker's run passes, and the process exits with 0, exactly on
   * a clean workspace; warnings never make it fail.
   */
  lemma {:induction false} RunPassesIff(ws: Workspace)
    ensures RunChecks(Empty, ws).0 == Completed(true) <==> Clean(ws)
    ensures ExitCode(RunChecks(Empty, ws).0) == 0 <==> Clean(ws)
  {
    var early := EarlyFindings(ws);
    EarlyErrorFree(ws);
    match DependencyFindings(ws) {
      case None =>
      case Some(ds) =>
        DependenciesClassified(ws);
        NoErrorConcat(early, ds);
        RecordAllConcat(Empty, early, ds);
        RecordAllAppends(Empty, early + ds);
        MessagesEmpty(early + ds, Error);
        assert RunChecks(Empty, ws).1.errors == Messages(early + ds, Error);
    }
  }

  /** The lists only grow: a run leaves each of them an extension of what it was. */
  lemma RunOnlyGrows(r: Report, ws: Workspace)
    ensures var r' := RunChecks(r, ws).1;
      r.errors <= r'.errors && r.warnings <= r'.warnings && r.passed <= r'.passed
  {
    RecordAllAppends(r, EarlyFindings(ws));
    if DependencyFindings(ws).Some? {
      RecordAllAppends(RecordAll(r, EarlyFindings(ws)), DependencyFindings(ws).value);
    }
  }

  // ---------------------------------------------------------------------------
  // The class

  class SecurityChecker {
    var errors: seq<string>
    var warnings: seq<string>
    var passed: seq<string>

    function Lists(): Report
      reads this
    {
      Report(errors, warnings, passed)
    }

    constructor ()
      ensures Lists() == Empty
    {
      errors, warnings, passed := [], [], [];
    }

    method CheckFileExists(ws: Workspace, path: string, critical: bool) returns (present: bool)
      modifies this
      ensures present <==> path in ws.files
      ensures Lists() == RecordAll(old(Lists()), [FileEntry(path, present, critical)])
    {
      RecordOne(Lists(), FileEntry(path, path in ws.files, critical));
      present := path in ws.files;
      var message := path + (if present then " existe" else " NO existe");
      if !present && critical {
        errors := errors + [message];
      } else if !present {
        warnings := warnings + [message];
      } else {
        passed := passed + [message];
      }
    }

    method CheckGitignore(ws: Workspace) returns (ok: bool)
      modifies this
      ensures ok == GitignoreFindings(ws).1
      ensures Lists() == RecordAll(old(Lists()), GitignoreFindings(ws).0)
    {
      var present := CheckFileExists(ws, ".gitignore", true);
      if !present {
        return false;
      }
      var content := ws.gitignore;
      var head := [FileEntry(".gitignore", true, true)];
      for i := 0 to |RequiredPatterns|
        invariant Lists() == RecordAll(old(Lists()), head + PatternEntries(content, RequiredPatterns[..i]))
      {
        var pattern := RequiredPatterns[i];
        assert head + PatternEntries(content, RequiredPatterns[..i + 1])
            == head + PatternEntries(content, RequiredPatterns[..i]) + [PatternEntry(content, pattern)];
        RecordSnoc(old(Lists()), head + PatternEntries(content, RequiredPatterns[..i]), PatternEntry(content, pattern));
        if Contains(content, pattern) {
          passed := passed + ["Patrón " + pattern + " encontrado en .gitignore"];
        } else {
          errors := errors + ["Patrón " + pattern + " falta en .gitignore"];
        }
      }
      assert RequiredPatterns[..|RequiredPatterns|] == RequiredPatterns;
      ok := true;
    }

    method CheckEnvVariables(ws: Workspace)
      modifies this
      ensures Lists() == RecordAll(old(Lists()), EnvVarEntries(ws.env, RequiredVars))
    {
      var envContent := ws.env;
      var lines := Lines(envContent);
      for i := 0 to |RequiredVars|
        invariant Lists() == RecordAll(old(Lists()), EnvVarEntries(envContent, RequiredVars[..i]))
      {
        var name := RequiredVars[i];
        assert EnvVarEntries(envContent, RequiredVars[..i + 1])
            == EnvVarEntries(envContent, RequiredVars[..i]) + [EnvVarEntry(envContent, name)];
        RecordSnoc(old(Lists()), EnvVarEntries(envContent, RequiredVars[..i]), EnvVarEntry(envContent, name));
        var line := FirstDefinition(lines, name);
        if line.Some? {
          if HasExampleValue(lines[line.value]) {
            warnings := warnings + [name + " tiene valor de ejemplo"];
          } else {
            passed := passed + [name + " configurado"];
          }
        } else {
          errors := errors + [name + " falta en .env"];
        }
      }
      assert RequiredVars[..|RequiredVars|] == RequiredVars;
    }

    method CheckEnvFiles(ws: Workspace)
      modifies this
      ensures Lists() == RecordAll(old(Lists()), EnvFileFindings(ws))
    {
      var r0 := Lists();
      var _ := CheckFileExists(ws, ".env.example", true);
      var envExists := CheckFileExists(ws, ".env", false);
      var two := [FileEntry(".env.example", ".env.example" in ws.files, true), FileEntry(".env", envExists, false)];
      RecordAllConcat(r0, two[..1], two[1..]);
      assert two[..1] + two[1..] == two;
      if envExists {
        CheckEnvVariables(ws);
        RecordAllConcat(r0, two, EnvVarEntries(ws.env, RequiredVars));
      } else {
        assert two + [] == two;
      }
    }

    method CheckGitStatus(ws: Workspace)
      modifies this
      ensures Lists() == RecordAll(old(Lists()), GitFindings(ws))
    {
      RecordOne(Lists(), GitFindings(ws)[0]);
      match ws.git {
        case GitUnavailable =>
          warnings := warnings + ["No se pudo verificar Git"];
        case NotRepo =>
          warnings := warnings + ["No es un repositorio Git"];
        case Repo(result) =>
          if result.Some? && !Blank(result.value) {
            errors := errors + [".env está siendo rastreado por Git"];
          } else {
            passed := passed + [".env NO está en Git"];
          }
      }
    }

    method CheckFilePermissions(ws: Workspace)
      modifies this
      ensures Lists() == RecordAll(old(Lists()), PermissionFindings(ws))
    {
      if ws.platform == "win32" || ".env" !in ws.files {
        return;
      }
      RecordOne(Lists(), PermissionFindings(ws)[0]);
      match ws.envMode {
        case None =>
          warnings := warnings + ["No se pudieron verificar permisos"];
        case Some(m) =>
          var mode := PermissionBits(m);
          if mode <= MaxEnvPermissions {
            passed := passed + ["Permisos de .env correctos"];
          } else {
            warnings := warnings + ["Permisos de .env muy permisivos"];
          }
      }
    }

    /** Returns whether `JSON.parse` threw, in which case nothing was recorded. */
    method CheckDependencies(ws: Workspace) returns (threw: bool)
      modifies this
      ensures threw <==> DependencyFindings(ws).None?
      ensures threw ==> Lists() == old(Lists())
      ensures !threw ==> Lists() == RecordAll(old(Lists()), DependencyFindings(ws).value)
    {
      if "package.json" !in ws.files {
        RecordOne(Lists(), Entry(Error, "package.json no encontrado"));
        errors := errors + ["package.json no encontrado"];
        return false;
      }
      if ws.manifest.Unparseable? {
        return true;
      }
      var deps, devDeps := ws.manifest.dependencies, ws.manifest.devDependencies;
      for i := 0 to |SecurityPackages|
        invariant Lists() == RecordAll(old(Lists()), PackageEntries(deps, devDeps, SecurityPackages[..i]))
      {
        var pkg := SecurityPackages[i];
        assert PackageEntries(deps, devDeps, SecurityPackages[..i + 1])
            == PackageEntries(deps, devDeps, SecurityPackages[..i]) + [PackageEntry(deps, devDeps, pkg)];
        RecordSnoc(old(Lists()), PackageEntries(deps, devDeps, SecurityPackages[..i]), PackageEntry(deps, devDeps, pkg));
        if Declared(deps, pkg) || Declared(devDeps, pkg) {
          passed := passed + ["Dependencia " + pkg + " encontrada"];
        } else {
          warnings := warnings + ["Dependencia " + pkg + " no encontrada"];
        }
      }
      assert SecurityPackages[..|SecurityPackages|] == SecurityPackages;
      threw := false;
    }

    /** The verdict of `generateReport`; printing the summary is left out. */
    method GenerateReport() returns (ok: bool)
      ensures ok <==> |errors| == 0
    {
      ok := |errors| == 0;
    }

    method Run(ws: Workspace) returns (o: RunOutcome)
      modifies this
      ensures (o, Lists()) == RunChecks(old(Lists()), ws)
    {
      var r0 := Lists();
      var _ := CheckGitignore(ws);
      CheckEnvFiles(ws);
      CheckGitStatus(ws);
      CheckFilePermissions(ws);
      var g, e, s, p := GitignoreFindings(ws).0, EnvFileFindings(ws), GitFindings(ws), PermissionFindings(ws);
      RecordAllConcat(r0, g, e);
      RecordAllConcat(r0, g + e, s);
      RecordAllConcat(r0, g + e + s, p);
      assert Lists() == RecordAll(r0, EarlyFindings(ws));
      var threw := CheckDependencies(ws);
      if threw {
        return Threw;
      }
      var ok := GenerateReport();
      o := Completed(ok);
    }
  }
}

/** The environment the build script (build.rs) hands to the tools it runs:
    the inherited variables minus Alire's prefixes, the variables exported by
    `alr printenv --unix`, the Python virtual environment, and the project
    search path of the GPR2 builds. The commands themselves are not modelled;
    their output and the directories involved are parameters. */
module BuildEnv {
  import opened Wrappers
  import opened Strings

  type Env = map<string, string>

  /** The value of `key`, if set. */
  function Lookup(env: Env, key: string): Option<string> {
    if key in env then Some(env[key]) else None
  }

  // ---------------------------------------------------------------- inherited

  /** The inherited variables, without those whose name ends in
      `ALIRE_PREFIX`. */
  function InheritedEnv(vars: Env): (r: Env)
    ensures forall k :: k in r <==> k in vars && !EndsWith(k, "ALIRE_PREFIX")
    ensures forall k :: k in r ==> r[k] == vars[k]
  {
    map k | k in vars && !EndsWith(k, "ALIRE_PREFIX") :: vars[k]
  }

  // ---------------------------------------------------------------- printenv

  /** What one line of `alr printenv --unix` does to the environment. */
  datatype LineEffect =
    | Ignored                            // not an assignment: skipped
    | Export(key: string, value: string) // sets `key` to `value`
    | Unquoted                           // an assignment whose value is not in quotes: a panic

  /** A line that starts with `export` and has a space, then an `=` after that
      space, assigns the text between the first space and the next `=` the
      text after that `=` with one double quote stripped from each end. */
  function ClassifyLine(line: string): (r: LineEffect)
    ensures !StartsWith(line, "export") ==> r == Ignored
    ensures ' ' !in line ==> r == Ignored
    ensures r.Export? ==> '=' !in r.key
  {
    if !StartsWith(line, "export") then Ignored
    else
      match SplitOnce(line, ' ')
      case None => Ignored
      case Some((_, rest)) => ReadAssignment(rest)
  }

  /** The text after the first space: `KEY=VALUE`, or skipped without `=`. */
  function ReadAssignment(text: string): (r: LineEffect)
    ensures r.Export? ==> '=' !in r.key
  {
    match SplitOnce(text, '=')
    case None => Ignored
    case Some((key, quoted)) => ReadQuoted(key, quoted)
  }

  /** The value with one double quote stripped from each end; a panic when
      either is missing. */
  function ReadQuoted(key: string, quoted: string): (r: LineEffect)
    ensures r != Ignored
    ensures r.Export? ==> r.key == key && quoted == "\"" + r.value + "\""
  {
    match StripPrefix(quoted, '"')
    case None => Unquoted
    case Some(inner) =>
      match StripSuffix(inner, '"')
      case None => Unquoted
      case Some(value) => Export(key, value)
  }

  /** Every assignment read from a line has the shape `export... KEY="VALUE"`:
      a first word starting with `export`, one space, the key, `=`, and the
      value between double quotes. */
  lemma ExportShape(line: string)
    ensures ClassifyLine(line).Export? ==>
              exists head :: ' ' !in head && StartsWith(head, "export")
                             && line == head + " " + ClassifyLine(line).key + "=\"" + ClassifyLine(line).value + "\""
  {
    var e := ClassifyLine(line);
    if e.Export? {
      var (head, rest) := SplitOnce(line, ' ').value;
      assert line == head + [' '] + rest && ' ' !in head;
      var (key, quoted) := SplitOnce(rest, '=').value;
      assert rest == key + ['='] + quoted;
      assert e == ReadQuoted(key, quoted);
      assert key == e.key && quoted == "\"" + e.value + "\"";
      PrefixBeforeSeparator(line, "export", head, ' ', rest);
      Reassemble(line, head, rest, key, quoted, e.value);
      assert ' ' !in head && StartsWith(head, "export") && line == head + " " + e.key + "=\"" + e.value + "\"";
    }
  }

  lemma Reassemble(line: string, head: string, rest: string, key: string, quoted: string, value: string)
    requires line == head + [' '] + rest && rest == key + ['='] + quoted
    requires quoted == "\"" + value + "\""
    ensures line == head + " " + key + "=\"" + value + "\""
  {
  }

  /** The converse: a line made of an `export...` word, a space, a key without
      `=`, an `=` and a value is read as an assignment of that key when the
      value is quoted at both ends, and panics otherwise. */
  lemma ClassifyAssignment(head: string, key: string, quoted: string)
    requires StartsWith(head, "export") && ' ' !in head && '=' !in key
    ensures ClassifyLine(head + " " + key + "=" + quoted) ==
              if |quoted| >= 2 && quoted[0] == '"' && quoted[|quoted| - 1] == '"'
              then Export(key, quoted[1..|quoted| - 1])
              else Unquoted
  {
    var line := head + " " + key + "=" + quoted;
    var rest := key + "=" + quoted;
    assert line == head + [' '] + rest;
    assert StartsWith(line, "export") by {
      assert line[..6] == head[..6];
    }
    SplitOnceAt(head, ' ', rest);
    assert rest == key + ['='] + quoted;
    SplitOnceAt(key, '=', quoted);
    assert ClassifyLine(line) == ReadQuoted(key, quoted);
    if |quoted| >= 2 && quoted[0] == '"' && quoted[|quoted| - 1] == '"' {
      assert StripPrefix(quoted, '"') == Some(quoted[1..]);
      assert StripSuffix(quoted[1..], '"') == Some(quoted[1..|quoted| - 1]);
    }
  }

  /** A line whose text after the first space has no `=` is skipped. */
  lemma ClassifyNoAssignment(head: string, rest: string)
    requires ' ' !in head && '=' !in rest
    ensures ClassifyLine(head + " " + rest) == Ignored
  {
    SplitOnceAt(head, ' ', rest);
  }

  /** The effect of one classified line on the environment. */
  function Perform(env: Env, e: LineEffect): (r: Run<Env>)
    ensures r.Panics? <==> e.Unquoted?
    ensures e.Ignored? ==> r == Returns(env)
    ensures e.Export? ==>
              r.value.Keys == env.Keys + {e.key}
              && r.value[e.key] == e.value
              && forall k :: k in env && k != e.key ==> r.value[k] == env[k]
  {
    match e
    case Ignored => Returns(env)
    case Unquoted => Panics
    case Export(key, value) => Returns(env[key := value])
  }

  /** One iteration of the loop over the printenv output. */
  function ApplyLine(env: Env, line: string): Run<Env> {
    Perform(env, ClassifyLine(line))
  }

  /** The loop over the lines, in order; it stops at the first panic. */
  function FoldLines(env: Env, lines: seq<string>): (r: Run<Env>)
    decreases |lines|
    ensures r.Returns? ==> env.Keys <= r.value.Keys
    ensures r.Returns? ==> forall k :: k in r.value && k !in env ==> LastExport(lines, k).Some?
  {
    if |lines| == 0 then Returns(env)
    else
      var env' :- ApplyLine(env, lines[0]);
      FoldLines(env', lines[1..])
  }

  /** build.rs:137-153: the printenv output folded into the environment. */
  function ImportPrintenv(env: Env, output: string): (r: Run<Env>)
    ensures r.Panics? <==> HasUnquoted(Split(output, '\n'))
    ensures r.Returns? ==> forall k :: Lookup(r.value, k) == Resolve(env, Split(output, '\n'), k)
  {
    var lines := Split(output, '\n');
    FoldLinesPanics(env, lines);
    var r := FoldLines(env, lines);
    assert r.Returns? ==> forall k :: Lookup(r.value, k) == Resolve(env, lines, k) by {
      if r.Returns? {
        forall k ensures Lookup(r.value, k) == Resolve(env, lines, k) {
          FoldLinesResolves(env, lines, k);
        }
      }
    }
    r
  }

  /** The value the last assignment of `key` among `lines` gives it, if any. */
  function LastExport(lines: seq<string>, key: string): Option<string>
    decreases |lines|
  {
    if |lines| == 0 then None
    else
      match LastExport(lines[1..], key)
      case Some(v) => Some(v)
      case None =>
        match ClassifyLine(lines[0])
        case Export(k, v) => if k == key then Some(v) else None
        case _ => None
  }

  /** The value of `key` once `lines` have been read on top of `env`: the last
      assignment wins, and a key never assigned keeps its inherited value. */
  function Resolve(env: Env, lines: seq<string>, key: string): Option<string> {
    match LastExport(lines, key)
    case Some(v) => Some(v)
    case None => Lookup(env, key)
  }

  predicate HasUnquoted(lines: seq<string>) {
    exists i :: 0 <= i < |lines| && ClassifyLine(lines[i]).Unquoted?
  }

  lemma HasUnquotedCons(lines: seq<string>)
    requires |lines| > 0
    ensures HasUnquoted(lines) <==> ClassifyLine(lines[0]).Unquoted? || HasUnquoted(lines[1..])
  {
    if HasUnquoted(lines[1..]) {
      var i :| 0 <= i < |lines[1..]| && ClassifyLine(lines[1..][i]).Unquoted?;
      assert ClassifyLine(lines[i + 1]).Unquoted?;
    }
    if HasUnquoted(lines) && !ClassifyLine(lines[0]).Unquoted? {
      var i :| 0 <= i < |lines| && ClassifyLine(lines[i]).Unquoted?;
      assert ClassifyLine(lines[1..][i - 1]).Unquoted?;
    }
  }

  /** The loop panics exactly when some line assigns an unquoted value. */
  lemma {:induction false} FoldLinesPanics(env: Env, lines: seq<string>)
    decreases |lines|
    ensures FoldLines(env, lines).Panics? <==> HasUnquoted(lines)
  {
    if |lines| > 0 {
      HasUnquotedCons(lines);
      var step := ApplyLine(env, lines[0]);
      if step.Returns? {
        FoldLinesPanics(step.value, lines[1..]);
      }
    }
  }

  /** When the loop completes, every key holds its `Resolve`d value: the last
      assignment wins, and unassigned keys keep their values. */
  lemma {:induction false} FoldLinesResolves(env: Env, lines: seq<string>, key: string)
    decreases |lines|
    requires FoldLines(env, lines).Returns?
    ensures Lookup(FoldLines(env, lines).value, key) == Resolve(env, lines, key)
  {
    if |lines| > 0 {
      var step := ApplyLine(env, lines[0]);
      FoldLinesResolves(step.value, lines[1..], key);
    }
  }

  /** A line as `alr printenv --unix` writes an assignment. */
  function ExportLine(key: string, value: string): string {
    "export " + key + "=\"" + value + "\""
  }

  /** The lines written for a series of assignments. */
  function ExportLines(exports: seq<(string, string)>): (r: seq<string>)
    ensures |r| == |exports|
    ensures forall i :: 0 <= i < |exports| ==> r[i] == ExportLine(exports[i].0, exports[i].1)
  {
    if |exports| == 0 then [] else [ExportLine(exports[0].0, exports[0].1)] + ExportLines(exports[1..])
  }

  /** The printenv output for a series of assignments, one per line. */
  function PrintenvText(exports: seq<(string, string)>): string {
    Join(ExportLines(exports), '\n')
  }

  /** The assignments performed in order. */
  function AssignAll(env: Env, exports: seq<(string, string)>): Env
    decreases |exports|
  {
    if |exports| == 0 then env else AssignAll(env[exports[0].0 := exports[0].1], exports[1..])
  }

  predicate WellFormedExport(e: (string, string)) {
    '=' !in e.0 && '\n' !in e.0 && '\n' !in e.1
  }

  /** Reading back the output written for a series of assignments performs
      exactly those assignments, in order: keys may hold no `=` and neither
      part a newline, values may hold anything else, quotes and `=` included. */
  lemma PrintenvRoundTrip(env: Env, exports: seq<(string, string)>)
    requires forall i :: 0 <= i < |exports| ==> WellFormedExport(exports[i])
    ensures ImportPrintenv(env, PrintenvText(exports)) == Returns(AssignAll(env, exports))
  {
    if |exports| == 0 {
      assert PrintenvText(exports) == "";
      assert Split("", '\n') == [""];
      assert ApplyLine(env, "") == Returns(env);
      assert FoldLines(env, [""]) == FoldLines(env, []);
    } else {
      ExportLinesHaveNoNewline(exports);
      SplitJoin(ExportLines(exports), '\n');
      FoldExportLines(env, exports);
    }
  }

  /** The same with the final newline that ends the command's output: the
      empty last line it leaves is skipped. */
  lemma PrintenvTrailingNewline(env: Env, exports: seq<(string, string)>)
    requires forall i :: 0 <= i < |exports| ==> WellFormedExport(exports[i])
    ensures ImportPrintenv(env, PrintenvText(exports) + "\n") == Returns(AssignAll(env, exports))
  {
    var lines := if |exports| == 0 then [""] else ExportLines(exports);
    assert Join(lines, '\n') == PrintenvText(exports);
    JoinSnoc(lines, '\n', "");
    assert Join(lines + [""], '\n') == PrintenvText(exports) + "\n";
    ExportLinesHaveNoNewline(exports);
    SplitJoin(lines + [""], '\n');
    assert ClassifyLine("") == Ignored;
    FoldLinesSnocIgnored(env, lines, "");
    if |exports| > 0 {
      FoldExportLines(env, exports);
    }
  }

  /** A skipped line at the end changes nothing. */
  lemma {:induction false} FoldLinesSnocIgnored(env: Env, lines: seq<string>, line: string)
    decreases |lines|
    requires ClassifyLine(line).Ignored?
    ensures FoldLines(env, lines + [line]) == FoldLines(env, lines)
  {
    if |lines| == 0 {
      assert [] + [line] == [line];
    } else {
      assert (lines + [line])[1..] == lines[1..] + [line];
      var step := ApplyLine(env, lines[0]);
      if step.Returns? {
        FoldLinesSnocIgnored(step.value, lines[1..], line);
      }
    }
  }

  lemma {:induction false} ExportLinesHaveNoNewline(exports: seq<(string, string)>)
    requires forall i :: 0 <= i < |exports| ==> WellFormedExport(exports[i])
    ensures forall i :: 0 <= i < |exports| ==> '\n' !in ExportLines(exports)[i]
  {
    if |exports| > 0 {
      ExportLinesHaveNoNewline(exports[1..]);
      var line := ExportLine(exports[0].0, exports[0].1);
      assert '\n' !in line by {
        assert line == "export " + exports[0].0 + "=\"" + exports[0].1 + "\"";
      }
      assert forall i :: 1 <= i < |exports| ==> ExportLines(exports)[i] == ExportLines(exports[1..])[i - 1];
    }
  }

  /** A line written for an assignment is read as that assignment. */
  lemma ClassifyExportLine(key: string, value: string)
    requires '=' !in key
    ensures ClassifyLine(ExportLine(key, value)) == Export(key, value)
  {
    var quoted := "\"" + value + "\"";
    assert quoted[1..|quoted| - 1] == value;
    assert ExportLine(key, value) == "export" + " " + key + "=" + quoted;
    ClassifyAssignment("export", key, quoted);
  }

  lemma {:induction false} FoldExportLines(env: Env, exports: seq<(string, string)>)
    requires forall i :: 0 <= i < |exports| ==> WellFormedExport(exports[i])
    decreases |exports|
    ensures FoldLines(env, ExportLines(exports)) == Returns(AssignAll(env, exports))
  {
    if |exports| > 0 {
      var key := exports[0].0;
      var value := exports[0].1;
      var lines := ExportLines(exports);
      ClassifyExportLine(key, value);
      assert ApplyLine(env, lines[0]) == Returns(env[key := value]);
      assert lines[1..] == ExportLines(exports[1..]);
      FoldExportLines(env[key := value], exports[1..]);
    }
  }

  // ---------------------------------------------------------------- venv

  /** `dir.join(name)` for a relative `name`: a separator is added unless
      `dir` is empty or already ends in one. */
  function JoinPath(dir: string, name: string): (r: string)
    ensures |dir| == 0 ==> r == name
    ensures |dir| > 0 && dir[|dir| - 1] == '/' ==> r == dir + name
    ensures |dir| > 0 && dir[|dir| - 1] != '/' ==> r == dir + "/" + name
  {
    if |dir| == 0 || dir[|dir| - 1] == '/' then dir + name else dir + "/" + name
  }

  /** The joined path begins with the directory and ends with the name. */
  lemma JoinPathParts(dir: string, name: string)
    ensures StartsWith(JoinPath(dir, name), dir) && EndsWith(JoinPath(dir, name), name)
  {
  }

  /** build.rs:161-167: `VIRTUAL_ENV` is set to the virtual environment and its
      `bin` directory is put in front of `PATH`, which must already be set. */
  function EnterVenv(env: Env, venv: string): (r: Run<Env>)
    ensures r.Returns? <==> "PATH" in env
    ensures r.Returns? ==> r.value.Keys == env.Keys + {"VIRTUAL_ENV"}
    ensures r.Returns? ==> r.value["VIRTUAL_ENV"] == venv
    ensures r.Returns? ==> r.value["PATH"] == JoinPath(venv, "bin") + ":" + env["PATH"]
    ensures r.Returns? ==> forall k :: k in env && k != "PATH" && k != "VIRTUAL_ENV" ==> r.value[k] == env[k]
  {
    var env := env["VIRTUAL_ENV" := venv];
    var path :- Unwrap(Lookup(env, "PATH"));
    Returns(env["PATH" := JoinPath(venv, "bin") + ":" + path])
  }

  /** The environment `pip` runs in: the inherited variables, then the
      printenv assignments, then the virtual environment. */
  function PipEnv(vars: Env, printenv: string, venv: string): Run<Env> {
    var env :- ImportPrintenv(InheritedEnv(vars), printenv);
    EnterVenv(env, venv)
  }

  /** `pip` sees the virtual environment's `bin` in front of the `PATH` that
      the printenv output last assigned, or else of the inherited one; the
      build panics when a printenv assignment is unquoted or no `PATH` is set
      at all. */
  lemma PipPath(vars: Env, printenv: string, venv: string)
    ensures var lines := Split(printenv, '\n');
            PipEnv(vars, printenv, venv).Panics? <==> HasUnquoted(lines) || Resolve(vars, lines, "PATH").None?
    ensures var lines := Split(printenv, '\n');
            PipEnv(vars, printenv, venv).Returns? ==>
              PipEnv(vars, printenv, venv).value["PATH"] == JoinPath(venv, "bin") + ":" + Resolve(vars, lines, "PATH").value
  {
    var lines := Split(printenv, '\n');
    var inherited := InheritedEnv(vars);
    assert Lookup(inherited, "PATH") == Lookup(vars, "PATH") by {
      assert !EndsWith("PATH", "ALIRE_PREFIX");
    }
    FoldLinesPanics(inherited, lines);
    if !HasUnquoted(lines) {
      FoldLinesResolves(inherited, lines, "PATH");
    }
  }

  // ---------------------------------------------------------------- GPR_PROJECT_PATH

  /** build.rs:182-195: before the library build the search path of
      `langkit/support`, the inherited `GPR_PROJECT_PATH` if any, and the GPR2
      checkout is appended to `GPR_PROJECT_PATH`, which must be set; with an
      inherited value an extra `:` is appended first. */
  function LibraryProjectPath(env: Env, inherited: Option<string>, langkitDir: string, gprDir: string): (r: Run<Env>)
    ensures r.Panics? <==> "GPR_PROJECT_PATH" !in env
    ensures r.Returns? ==> r.value.Keys == env.Keys
    ensures r.Returns? ==> forall k :: k in env && k != "GPR_PROJECT_PATH" ==> r.value[k] == env[k]
    ensures r.Returns? && inherited.None? ==>
              r.value["GPR_PROJECT_PATH"] == env["GPR_PROJECT_PATH"] + ":" + JoinPath(langkitDir, "support") + ":" + gprDir
    ensures r.Returns? && inherited.Some? ==>
              r.value["GPR_PROJECT_PATH"] == env["GPR_PROJECT_PATH"] + "::" + JoinPath(langkitDir, "support")
                                             + ":" + inherited.value + ":" + gprDir
  {
    var search := JoinPath(langkitDir, "support")
                  + (if inherited.Some? then ":" + inherited.value else "")
                  + ":" + gprDir;
    var current :- Unwrap(Lookup(env, "GPR_PROJECT_PATH"));
    var current := if inherited.Some? then current + ":" else current;
    Returns(env["GPR_PROJECT_PATH" := current + ":" + search])
  }

  /** build.rs:209-217: before the C binding build, and only with an
      inherited value, the GPR2 checkout and the inherited value are appended
      once more. */
  function BindingProjectPath(env: Env, inherited: Option<string>, gprDir: string): (r: Run<Env>)
    ensures inherited.None? ==> r == Returns(env)
    ensures r.Panics? <==> inherited.Some? && "GPR_PROJECT_PATH" !in env
    ensures r.Returns? && inherited.Some? ==>
              r.value == env["GPR_PROJECT_PATH" := env["GPR_PROJECT_PATH"] + ":" + gprDir + ":" + inherited.value]
  {
    match inherited
    case None => Returns(env)
    case Some(g) =>
      var current :- Unwrap(Lookup(env, "GPR_PROJECT_PATH"));
      Returns(env["GPR_PROJECT_PATH" := current + ":" + gprDir + ":" + g])
  }

  /** The inherited value and the environment come from the same process
      environment: an inherited `GPR_PROJECT_PATH` is still set when the
      project paths are extended, so neither step panics then. */
  lemma InheritedProjectPathIsSet(vars: Env, printenv: string, venv: string, langkitDir: string, gprDir: string)
    ensures "GPR_PROJECT_PATH" in vars && PipEnv(vars, printenv, venv).Returns? ==>
              var env := PipEnv(vars, printenv, venv).value;
              && "GPR_PROJECT_PATH" in env
              && LibraryProjectPath(env, Some(vars["GPR_PROJECT_PATH"]), langkitDir, gprDir).Returns?
              && BindingProjectPath(env, Some(vars["GPR_PROJECT_PATH"]), gprDir).Returns?
  {
    assert !EndsWith("GPR_PROJECT_PATH", "ALIRE_PREFIX");
  }

  /** The `GPR_PROJECT_PATH` the C binding is built with. Without an inherited
      value it is the current one followed by `langkit/support` and the GPR2
      checkout. With an inherited value `g` it gains an empty entry, and both
      the GPR2 checkout and `g` appear twice. Nothing else changes, and the
      build panics when the variable is not set. */
  lemma ProjectPathForBinding(env: Env, inherited: Option<string>, langkitDir: string, gprDir: string)
    ensures var r := LibraryProjectPath(env, inherited, langkitDir, gprDir);
            var r' := if r.Panics? then Panics else BindingProjectPath(r.value, inherited, gprDir);
            && (r'.Panics? <==> "GPR_PROJECT_PATH" !in env)
            && (r'.Returns? ==>
                  var support := JoinPath(langkitDir, "support");
                  r'.value == env["GPR_PROJECT_PATH" :=
                    match inherited
                    case None => env["GPR_PROJECT_PATH"] + ":" + support + ":" + gprDir
                    case Some(g) => env["GPR_PROJECT_PATH"] + "::" + support + ":" + g + ":" + gprDir
                                    + ":" + gprDir + ":" + g])
  {
    var r := LibraryProjectPath(env, inherited, langkitDir, gprDir);
    if "GPR_PROJECT_PATH" in env {
      var support := JoinPath(langkitDir, "support");
      var e := env["GPR_PROJECT_PATH"];
      match inherited
      case None =>
        assert r.value == env["GPR_PROJECT_PATH" := e + ":" + (support + "" + ":" + gprDir)];
        assert e + ":" + (support + "" + ":" + gprDir) == e + ":" + support + ":" + gprDir;
      case Some(g) =>
        var library := e + ":" + ":" + (support + (":" + g) + ":" + gprDir);
        assert r.value == env["GPR_PROJECT_PATH" := library];
        assert library + ":" + gprDir + ":" + g
            == e + "::" + support + ":" + g + ":" + gprDir + ":" + gprDir + ":" + g;
        assert r.value["GPR_PROJECT_PATH" := library + ":" + gprDir + ":" + g]
            == env["GPR_PROJECT_PATH" := library + ":" + gprDir + ":" + g];
    }
  }
}

/**
 * The `docker` commands `DockerPublish.execute` runs: the build argument vector, the steps of a
 * publish run, and `_format_result`, which renders one command's outcome for the log.
 */
module Commands {
  import opened Text
  import opened Collections
  import opened Normalize

  // ---------------------------------------------------------------- _format_result

  /** What `_run_command` returns: the exit code and the decoded output streams. */
  datatype CommandResult = CommandResult(code: int, stdout: string, stderr: string)

  /** `_truncate`'s default limit, the most characters of each stream kept in the log. */
  const OutputLimit: nat := 2000

  /** `f"{label} (exit code {code})"`. */
  function Header(title: string, code: int): (r: string)
    ensures StartsWith(r, title + " (exit code ") && EndsWith(r, IntToString(code) + ")")
  {
    var front := title + " (exit code ";
    Affixes(front, IntToString(code) + ")");
    front + (IntToString(code) + ")")
  }

  /** The section of one stream: `name:` and the last `OutputLimit` characters of the stripped text, or nothing. */
  function Section(name: string, output: string): (r: seq<string>)
    ensures |r| <= 1
    ensures Strip(output) == "" <==> r == []
    ensures r != [] ==> r[0] == name + ":\n" + Truncate(Strip(output), OutputLimit)
  {
    var text := Strip(output);
    if text != "" then [name + ":\n" + Truncate(text, OutputLimit)] else []
  }

  /** A stream's part of the log entry: a newline, its label and the tail of its stripped text, or nothing when it is blank. */
  function Shown(name: string, output: string): (r: string)
    ensures Strip(output) == "" ==> r == ""
    ensures Strip(output) != "" ==> r == "\n" + name + ":\n" + Truncate(Strip(output), OutputLimit)
    ensures |r| <= 1 + |name| + 2 + OutputLimit
  {
    var section := Section(name, output);
    if section != [] then
      NewlineBefore(name, Truncate(Strip(output), OutputLimit), section[0]);
      "\n" + section[0]
    else ""
  }

  lemma NewlineBefore(name: string, tail: string, line: string)
    requires line == name + ":\n" + tail
    ensures "\n" + line == "\n" + name + ":\n" + tail && |"\n" + line| == 3 + |name| + |tail|
  {
  }

  /**
   * `_format_result(label, result)`: the header, then the stdout section, then the stderr section,
   * each present exactly when its stripped stream is not blank.
   */
  function FormatResult(title: string, result: CommandResult): (r: string)
    ensures r == Header(title, result.code) + Shown("stdout", result.stdout) + Shown("stderr", result.stderr)
    ensures StartsWith(r, Header(title, result.code))
    ensures Strip(result.stdout) == "" && Strip(result.stderr) == "" ==> r == Header(title, result.code)
    ensures |r| <= |Header(title, result.code)| + 2 * (1 + 8 + OutputLimit)
  {
    var header := Header(title, result.code);
    var out, err := Section("stdout", result.stdout), Section("stderr", result.stderr);
    JoinShown(header, out, err, Shown("stdout", result.stdout), Shown("stderr", result.stderr));
    Join("\n", [header] + out + err)
  }

  /** The joined header and sections are the header followed by what each stream shows. */
  lemma JoinShown(header: string, out: seq<string>, err: seq<string>, shownOut: string, shownErr: string)
    requires |out| <= 1 && |err| <= 1
    requires shownOut == if out != [] then "\n" + out[0] else ""
    requires shownErr == if err != [] then "\n" + err[0] else ""
    ensures Join("\n", [header] + out + err) == header + shownOut + shownErr
    ensures StartsWith(header + shownOut + shownErr, header)
  {
    JoinSections(header, out, err);
    assert header + shownOut + shownErr == header + (shownOut + shownErr);
    Affixes(header, shownOut + shownErr);
  }

  /** The header and up to two sections, joined with newlines: each section follows a newline. */
  lemma JoinSections(header: string, out: seq<string>, err: seq<string>)
    requires |out| <= 1 && |err| <= 1
    ensures Join("\n", [header] + out + err)
         == header + (if out != [] then "\n" + out[0] else "") + (if err != [] then "\n" + err[0] else "")
  {
    if out == [] && err == [] {
      assert [header] + out + err == [header];
    } else if out == [] || err == [] {
      var line := if out != [] then out[0] else err[0];
      assert [header] + out + err == [header, line];
      JoinTwo(header, line);
    } else {
      assert [header] + out + err == [header, out[0], err[0]];
      JoinThree(header, out[0], err[0]);
    }
  }

  lemma JoinTwo(a: string, b: string)
    ensures Join("\n", [a, b]) == a + ("\n" + b)
  {
    assert [a, b][1..] == [b];
  }

  lemma JoinThree(a: string, b: string, c: string)
    ensures Join("\n", [a, b, c]) == a + ("\n" + b) + ("\n" + c)
  {
    assert [a, b, c][1..] == [b, c];
    JoinTwo(b, c);
  }

  /** A concatenation starts with its first part and ends with its second. */
  lemma Affixes(a: string, b: string)
    ensures StartsWith(a + b, a) && EndsWith(a + b, b)
  {
    assert (a + b)[..|a|] == a;
    assert (a + b)[|a|..] == b;
  }

  /**
   * The log entry ends with the last `OutputLimit` characters of the stripped stderr when there is
   * any, and otherwise with those of the stripped stdout: the end of a long output is what is kept.
   */
  lemma FormatResultShowsTail(title: string, result: CommandResult)
    ensures var r := FormatResult(title, result);
      var out, err := Strip(result.stdout), Strip(result.stderr);
      && (err != "" ==> EndsWith(r, Truncate(err, OutputLimit)))
      && (err == "" && out != "" ==> EndsWith(r, Truncate(out, OutputLimit)))
  {
    var r := FormatResult(title, result);
    var header := Header(title, result.code);
    var shownOut, shownErr := Shown("stdout", result.stdout), Shown("stderr", result.stderr);
    var out, err := Strip(result.stdout), Strip(result.stderr);
    if err != "" {
      ShownEndsWithTail("stderr", result.stderr);
      Affixes(header + shownOut, shownErr);
      EndsWithSuffix(r, shownErr, Truncate(err, OutputLimit));
    } else if out != "" {
      ShownEndsWithTail("stdout", result.stdout);
      assert r == header + shownOut;
      Affixes(header, shownOut);
      EndsWithSuffix(r, shownOut, Truncate(out, OutputLimit));
    }
  }

  lemma ShownEndsWithTail(name: string, output: string)
    requires Strip(output) != ""
    ensures EndsWith(Shown(name, output), Truncate(Strip(output), OutputLimit))
  {
    var front := "\n" + name + ":\n";
    assert Shown(name, output) == front + Truncate(Strip(output), OutputLimit);
    Affixes(front, Truncate(Strip(output), OutputLimit));
  }

  lemma EndsWithSuffix(s: string, t: string, u: string)
    requires EndsWith(s, t) && EndsWith(t, u)
    ensures EndsWith(s, u)
  {
    assert s[|s| - |u|..] == t[|t| - |u|..];
  }

  // ---------------------------------------------------------------- build command

  /** `flag`, `key=value` for every pair, in the order of the dict. */
  function FlagPairs(flag: string, kvs: Pairs): (r: seq<string>)
    ensures |r| == 2 * |kvs|
    ensures forall i :: 0 <= i < |kvs| ==> r[2 * i] == flag && r[2 * i + 1] == kvs[i].0 + "=" + kvs[i].1
    decreases |kvs|
  {
    if kvs == [] then []
    else
      var n := |kvs| - 1;
      FlagPairs(flag, kvs[..n]) + [flag, kvs[n].0 + "=" + kvs[n].1]
  }

  lemma FlagPairsStep(flag: string, kvs: Pairs, i: nat)
    requires i < |kvs|
    ensures FlagPairs(flag, kvs[..i + 1]) == FlagPairs(flag, kvs[..i]) + [flag, kvs[i].0 + "=" + kvs[i].1]
  {
    assert kvs[..i + 1][..i] == kvs[..i];
  }

  /** How the `docker` CLI reads a `KEY=VALUE` argument: split at the first `=`. */
  function Unpair(item: string): (string, string)
    requires '=' in item
  {
    var i := IndexOf(item, '=');
    (item[..i], item[i + 1..])
  }

  /**
   * Every `--build-arg` or `--label` argument reads back as the pair it was written from when the
   * key holds no `=` (as every key normalised from a list or a string does).
   */
  lemma FlagPairsReadBack(flag: string, kvs: Pairs)
    requires forall i :: 0 <= i < |kvs| ==> '=' !in kvs[i].0
    ensures var r := FlagPairs(flag, kvs);
      forall i :: 0 <= i < |kvs| ==> r[2 * i] == flag && '=' in r[2 * i + 1] && Unpair(r[2 * i + 1]) == kvs[i]
  {
    var r := FlagPairs(flag, kvs);
    forall i | 0 <= i < |kvs|
      ensures '=' in r[2 * i + 1] && Unpair(r[2 * i + 1]) == kvs[i]
    {
      var key, value := kvs[i].0, kvs[i].1;
      var item := key + "=" + value;
      assert item[|key|] == '=';
      IndexOfAt(item, '=', |key|);
      assert item[..|key|] == key && item[|key| + 1..] == value;
    }
  }

  /** `["--platform", ",".join(platforms)]` when there are platforms. */
  function PlatformFlag(platforms: seq<string>): seq<string> {
    if platforms != [] then ["--platform", Join(",", platforms)] else []
  }

  /** An optional `flag value` pair. */
  function OptionFlag(flag: string, value: Option<string>): seq<string> {
    if value.Some? then [flag, value.value] else []
  }

  /**
   * The argument vector of `docker build`: `-t` and the reference, the optional `-f`, the build
   * arguments, the labels, the optional `--target` and `--platform`, and the context `.`.
   */
  function BuildArgv(reference: string, dockerfile: Option<string>, buildArgs: Pairs, labels: Pairs,
                     target: Option<string>, platforms: seq<string>): (argv: seq<string>)
    ensures |argv| == 5 + |OptionFlag("-f", dockerfile)| + 2 * |buildArgs| + 2 * |labels|
                        + |OptionFlag("--target", target)| + |PlatformFlag(platforms)|
    ensures argv[..4] == ["docker", "build", "-t", reference] && argv[|argv| - 1] == "."
  {
    ["docker", "build", "-t", reference] + OptionFlag("-f", dockerfile)
      + FlagPairs("--build-arg", buildArgs) + FlagPairs("--label", labels)
      + OptionFlag("--target", target) + PlatformFlag(platforms) + ["."]
  }

  /** `execute`'s assembly of `build_cmd`, extended flag by flag. */
  method BuildCommand(reference: string, dockerfile: Option<string>, buildArgs: Pairs, labels: Pairs,
                      target: Option<string>, platforms: seq<string>) returns (argv: seq<string>)
    ensures argv == BuildArgv(reference, dockerfile, buildArgs, labels, target, platforms)
  {
    argv := ["docker", "build", "-t", reference];
    if dockerfile.Some? {
      argv := argv + ["-f", dockerfile.value];
    }
    ghost var head := ["docker", "build", "-t", reference] + OptionFlag("-f", dockerfile);
    assert argv == head;
    argv := AppendFlagPairs(argv, "--build-arg", buildArgs);
    argv := AppendFlagPairs(argv, "--label", labels);
    ghost var flags := head + FlagPairs("--build-arg", buildArgs) + FlagPairs("--label", labels);
    assert argv == flags;
    if target.Some? {
      argv := argv + ["--target", target.value];
    }
    assert argv == flags + OptionFlag("--target", target);
    if platforms != [] {
      argv := argv + ["--platform", Join(",", platforms)];
    }
    assert argv == flags + OptionFlag("--target", target) + PlatformFlag(platforms);
    argv := argv + ["."];
  }

  /** The loop over one dict of `execute`: `flag` and `key=value` appended for every pair. */
  method AppendFlagPairs(argv: seq<string>, flag: string, kvs: Pairs) returns (r: seq<string>)
    ensures r == argv + FlagPairs(flag, kvs)
  {
    r := argv;
    for i := 0 to |kvs|
      invariant r == argv + FlagPairs(flag, kvs[..i])
    {
      FlagPairsStep(flag, kvs, i);
      r := r + [flag, kvs[i].0 + "=" + kvs[i].1];
    }
    assert kvs[..|kvs|] == kvs;
  }

  // ---------------------------------------------------------------- steps

  /** One `docker` command of a publish run. */
  datatype Step =
    | Login(registry: string, user: string, password: string)
    | Build(argv: seq<string>)
    | Tag(source: string, target: string)
    | Push(ref: string)

  /** A command as `_run_command` receives it: the argument vector, the directory, the text piped in. */
  datatype Invocation = Invocation(argv: seq<string>, cwd: string, stdin: Option<string>)

  /**
   * The command line of a step, run in `cwd`: the password goes to standard input, and only for
   * `docker login`; `docker tag` takes the source and the target, `docker push` the reference.
   */
  function Invoke(step: Step, cwd: string): (r: Invocation)
    ensures r.cwd == cwd
    ensures r.stdin.Some? <==> step.Login?
    ensures step.Login? ==> && r.stdin == Some(step.password)
                            && r.argv == ["docker", "login", step.registry, "-u", step.user, "--password-stdin"]
    ensures step.Build? ==> r.argv == step.argv
    ensures step.Tag? ==> |r.argv| == 4 && r.argv[..2] == ["docker", "tag"] && r.argv[2..] == [step.source, step.target]
    ensures step.Push? ==> |r.argv| == 3 && r.argv[..2] == ["docker", "push"] && r.argv[2..] == [step.ref]
  {
    match step
    case Login(registry, user, password) =>
      Invocation(["docker", "login", registry, "-u", user, "--password-stdin"], cwd, Some(password))
    case Build(argv) => Invocation(argv, cwd, None)
    case Tag(source, target) => Invocation(["docker", "tag", source, target], cwd, None)
    case Push(ref) => Invocation(["docker", "push", ref], cwd, None)
  }

  /** The label of the step's log entry: the command, and for a tag or a push the reference it names. */
  function Label(step: Step): (r: string)
    ensures StartsWith(r, "docker ")
    ensures step.Login? ==> r == "docker login"
    ensures step.Build? ==> r == "docker build"
    ensures step.Tag? ==> r == "docker tag -> " + step.target && EndsWith(r, " -> " + step.target)
    ensures step.Push? ==> r == "docker push " + step.ref && EndsWith(r, " " + step.ref)
  {
    match step
    case Login(_, _, _) => "docker login"
    case Build(_) => "docker build"
    case Tag(_, target) =>
      Affixes("docker tag", " -> " + target);
      assert "docker tag" + (" -> " + target) == "docker tag -> " + target;
      "docker tag -> " + target
    case Push(ref) =>
      Affixes("docker push", " " + ref);
      assert "docker push" + (" " + ref) == "docker push " + ref;
      "docker push " + ref
  }

  /** Only `docker login` gets input: the password, on standard input rather than in its arguments. */
  lemma PasswordOnlyOnStdin(step: Step, cwd: string)
    ensures var inv := Invoke(step, cwd);
      && (inv.stdin.Some? <==> step.Login?)
      && (step.Login? ==> inv.stdin == Some(step.password) && inv.argv[|inv.argv| - 1] == "--password-stdin")
      && ((step.Login? && step.password !in {"docker", "login", "-u", "--password-stdin", step.registry, step.user})
          ==> step.password !in inv.argv)
  {
  }
}

/** `get_container_kwargs` of `agents/aider.py`: the aider container's image,
    mounts and entrypoint, whose shell script embeds the solver command
    between single quotes.

    `shlex.quote` is a parameter (its quoting is not modelled), as are the
    environment and the user and group ids the process runs as. */
module AiderAgent {
  import opened Wrappers
  import opened Strings

  // ---------------------------------------------------------------------
  // Escaping the solver command
  // ---------------------------------------------------------------------

  /** What stands for one `'` inside a single-quoted shell word: close the
      quotes, a double-quoted `'`, reopen. */
  const EscapedQuote := "'\"'\"'"

  /** Every `'` of the solver command replaced by `'"'"'`. */
  function EscapeSolverCommand(s: string): (r: string)
    ensures '\'' !in s ==> r == s
  {
    if '\'' !in s then
      CharWitness(s, "'", '\'');
      ReplaceAll(s, "'", EscapedQuote)
    else ReplaceAll(s, "'", EscapedQuote)
  }

  /** One step of the escape: a quote becomes four more characters, any
      other character stays. */
  lemma EscapeStep(s: string)
    requires |s| > 0
    ensures s[0] == '\'' ==> EscapeSolverCommand(s) == EscapedQuote + EscapeSolverCommand(s[1..])
    ensures s[0] != '\'' ==> EscapeSolverCommand(s) == [s[0]] + EscapeSolverCommand(s[1..])
  {
    assert IsPrefix("'", s) <==> s[0] == '\'';
  }

  // ---------------------------------------------------------------------
  // How a POSIX shell reads a quoted word
  // ---------------------------------------------------------------------

  /** The index of the first `c` in `w`. */
  function FindChar(w: string, c: char): (r: Option<nat>)
    ensures r.Some? ==> r.value < |w| && w[r.value] == c && c !in w[..r.value]
    ensures r.None? ==> c !in w
    decreases |w|
  {
    if |w| == 0 then None
    else if w[0] == c then Some(0)
    else match FindChar(w[1..], c)
      case None => None
      case Some(j) =>
        assert w[..j + 1] == [w[0]] + w[1..][..j];
        Some(j + 1)
  }

  lemma FindCharAt(p: string, c: char, rest: string)
    requires c !in p
    ensures FindChar(p + [c] + rest, c) == Some(|p|)
  {
    var w := p + [c] + rest;
    assert w[|p|] == c;
    assert w[..|p|] == p;
  }

  /** Characters that keep a special meaning inside double quotes. */
  predicate DoubleQuoteSpecial(c: char) {
    c == '$' || c == '`' || c == '\\'
  }

  /** The word a POSIX shell reads from `w`, for words made only of quoted
      pieces: inside single quotes every character is literal (section
      2.2.2 of the Shell Command Language), inside double quotes every
      character but `$`, backquote, backslash and `"` is (section 2.2.3).
      None outside that language, including an unterminated quote. */
  function ShellWord(w: string): (r: Option<string>)
    decreases |w|
  {
    if |w| == 0 then Some("")
    else if w[0] == '\'' || w[0] == '"' then
      match FindChar(w[1..], w[0])
      case None => None
      case Some(j) =>
        var inner := w[1..j + 1];
        if w[0] == '"' && exists k :: 0 <= k < |inner| && DoubleQuoteSpecial(inner[k]) then None
        else match ShellWord(w[j + 2..])
          case None => None
          case Some(rest) => Some(inner + rest)
    else None
  }

  /** A single-quoted piece holding `p`, followed by more of the word. */
  lemma ShellWordSingle(p: string, rest: string)
    requires '\'' !in p
    ensures ShellWord("'" + p + "'" + rest) ==
            match ShellWord(rest) case None => None case Some(r) => Some(p + r)
  {
    var w := "'" + p + "'" + rest;
    assert w[1..] == p + ['\''] + rest;
    FindCharAt(p, '\'', rest);
    assert w[1..|p| + 1] == p;
    assert w[|p| + 2..] == rest;
  }

  /** A double-quoted `'`, followed by more of the word. */
  lemma ShellWordQuotedQuote(rest: string)
    ensures ShellWord("\"'\"" + rest) ==
            match ShellWord(rest) case None => None case Some(r) => Some("'" + r)
  {
    var w := "\"'\"" + rest;
    assert w[1..] == "'" + ['"'] + rest;
    FindCharAt("'", '"', rest);
    assert w[1..2] == "'";
    assert !DoubleQuoteSpecial('\'');
    assert w[3..] == rest;
  }

  /** The escape of `s`, inside the closing of a single-quoted piece that
      already holds `p`, reads back as `p + s`. */
  lemma {:induction false} EscapeReadsBack(p: string, s: string)
    requires '\'' !in p
    ensures ShellWord("'" + p + EscapeSolverCommand(s) + "'") == Some(p + s)
    decreases |s|
  {
    if |s| == 0 {
      EscapeEmpty(p);
      assert p + "" == p + s;
    } else if s[0] != '\'' {
      EscapeReadsBack(p + [s[0]], s[1..]);
      EscapePlainCase(p, s);
    } else {
      EscapeReadsBack("", s[1..]);
      EscapeQuoteCase(p, s);
    }
  }

  lemma EscapePlainCase(p: string, s: string)
    requires '\'' !in p && |s| > 0 && s[0] != '\''
    requires ShellWord("'" + (p + [s[0]]) + EscapeSolverCommand(s[1..]) + "'") == Some(p + [s[0]] + s[1..])
    ensures ShellWord("'" + p + EscapeSolverCommand(s) + "'") == Some(p + s)
  {
    EscapeStep(s);
    assert s == [s[0]] + s[1..];
    PlainStep(p, s[0], EscapeSolverCommand(s[1..]), EscapeSolverCommand(s), s[1..]);
  }

  lemma EscapeQuoteCase(p: string, s: string)
    requires '\'' !in p && |s| > 0 && s[0] == '\''
    requires ShellWord("'" + "" + EscapeSolverCommand(s[1..]) + "'") == Some("" + s[1..])
    ensures ShellWord("'" + p + EscapeSolverCommand(s) + "'") == Some(p + s)
  {
    var e1 := EscapeSolverCommand(s[1..]);
    EscapeStep(s);
    assert "'" + "" + e1 + "'" == "'" + e1 + "'";
    assert "" + s[1..] == s[1..];
    EscapeQuoteStep(p, s[1..], e1);
    assert "'" + s[1..] == s;
  }

  lemma PlainStep(p: string, c: char, e1: string, e: string, s1: string)
    requires e == [c] + e1
    requires ShellWord("'" + (p + [c]) + e1 + "'") == Some(p + [c] + s1)
    ensures ShellWord("'" + p + e + "'") == Some(p + ([c] + s1))
  {
    assert "'" + p + e + "'" == "'" + (p + [c]) + e1 + "'";
    assert p + [c] + s1 == p + ([c] + s1);
  }

  lemma EscapeEmpty(p: string)
    requires '\'' !in p
    ensures ShellWord("'" + p + EscapeSolverCommand("") + "'") == Some(p + "")
  {
    assert "'" + p + EscapeSolverCommand("") + "'" == "'" + p + "'" + "";
    ShellWordSingle(p, "");
  }

  lemma EscapedQuoteParts()
    ensures EscapedQuote == "'" + "\"'\"" + "'"
  {
  }

  /** The step of `EscapeReadsBack` for a leading quote. */
  lemma EscapeQuoteStep(p: string, s1: string, e1: string)
    requires '\'' !in p
    requires ShellWord("'" + e1 + "'") == Some(s1)
    ensures ShellWord("'" + p + (EscapedQuote + e1) + "'") == Some(p + ("'" + s1))
  {
    var q := "'";
    var d := "\"'\"";
    var tail := q + e1 + q;
    EscapedQuoteParts();
    Regroup(q, p, d, e1);
    assert ShellWord(d + tail) == Some("'" + s1) by {
      ShellWordQuotedQuote(tail);
    }
    ShellWordSingle(p, d + tail);
  }

  /** Regrouping the pieces of an escaped quote between two words. */
  lemma Regroup(q: string, p: string, d: string, e1: string)
    ensures q + p + (q + d + q + e1) + q == q + p + q + (d + (q + e1 + q))
  {
  }

  /** The solver command, escaped and put between single quotes as the
      entrypoint does, is read by the shell as the command itself. */
  lemma SolverWordReadsBack(s: string)
    ensures ShellWord("'" + EscapeSolverCommand(s) + "'") == Some(s)
  {
    EscapeReadsBack("", s);
    assert "'" + "" + EscapeSolverCommand(s) + "'" == "'" + EscapeSolverCommand(s) + "'";
    assert "" + s == s;
  }

  // ---------------------------------------------------------------------
  // The entrypoint script and the container
  // ---------------------------------------------------------------------

  const ScriptHead := "source /venv/bin/activate && " + "python modify_repo.py " + "--model-name "

  /** The arguments that pass the test command on, when there is one. */
  function TestArgs(quote: string -> string, testCommand: Option<string>): string {
    if Truthy(testCommand) then " --test-command " + quote(testCommand.value) else ""
  }

  const SolverFlag := " --solver-command "

  /** The solver command as one single-quoted shell word. */
  function QuotedWord(solverCommand: string): (w: string)
    ensures |w| >= 2 && w[|w| - 1] == '\''
  {
    "'" + EscapeSolverCommand(solverCommand) + "'"
  }

  /** The script up to the solver command's word. */
  function CommandPrefix(quote: string -> string, modelName: string): string {
    ScriptHead + quote(modelName) + SolverFlag
  }

  /** The script up to the closing quote of the solver command. */
  function ScriptFront(quote: string -> string, modelName: string, solverCommand: string): string {
    CommandPrefix(quote, modelName) + QuotedWord(solverCommand)
  }

  /** What stripping leaves after the solver command: nothing without a
      test command, else the test-command flag and the quoted command less
      trailing whitespace. */
  function ScriptTail(quote: string -> string, testCommand: Option<string>): (r: string)
    ensures |r| > 0 <==> Truthy(testCommand)
    ensures Truthy(testCommand) ==> IsPrefix("  --test-command", r)
  {
    if Truthy(testCommand) then
      var r := "  --test-command" + RStripSpace(" " + quote(testCommand.value));
      assert r[..16] == "  --test-command";
      r
    else ""
  }

  /** The stripped script `bash -c` runs: the front as built, then the
      test-command arguments if any. */
  function Script(quote: string -> string, modelName: string, solverCommand: string,
                  testCommand: Option<string>): (script: string)
    ensures IsPrefix(ScriptHead, script)
    ensures script == ScriptFront(quote, modelName, solverCommand) + ScriptTail(quote, testCommand)
  {
    var front := ScriptFront(quote, modelName, solverCommand);
    var qt := if Truthy(testCommand) then quote(testCommand.value) else "";
    var tail := ScriptTail(quote, testCommand);
    assert Strip(front + " " + TestArgs(quote, testCommand)) == front + tail by {
      ScriptFrontEnds(quote, modelName, solverCommand);
      StripScript(front, Truthy(testCommand), qt);
    }
    assert IsPrefix(ScriptHead, front + tail) by {
      ScriptFrontEnds(quote, modelName, solverCommand);
      PrefixExtend(ScriptHead, front, tail);
    }
    Strip(front + " " + TestArgs(quote, testCommand))
  }

  lemma PrefixExtend(h: string, front: string, x: string)
    requires IsPrefix(h, front)
    ensures IsPrefix(h, front + x) && (front + x)[..|h|] == h
  {
    assert (front + x)[..|h|] == front[..|h|];
  }

  /** The stripped script, for a front that starts and ends with non-space
      characters. */
  lemma StripScript(front: string, tested: bool, qt: string)
    requires |front| > 0 && !IsSpace(front[0]) && !IsSpace(front[|front| - 1])
    ensures Strip(front + " " + (if tested then " --test-command " + qt else ""))
            == front + (if tested then "  --test-command" + RStripSpace(" " + qt) else "")
  {
    var args := if tested then " --test-command " + qt else "";
    StripAfterFront(front, args);
    if tested {
      TestArgsStripped(qt);
    } else {
      assert RStripSpace(" " + "") == "";
    }
  }

  lemma ScriptFrontEnds(quote: string -> string, modelName: string, solverCommand: string)
    ensures var front := ScriptFront(quote, modelName, solverCommand);
      && |front| > |ScriptHead| && IsPrefix(ScriptHead, front)
      && front[0] == 's' && front[|front| - 1] == '\''
  {
    var front := ScriptFront(quote, modelName, solverCommand);
    var rest := quote(modelName) + SolverFlag + QuotedWord(solverCommand);
    assert front == ScriptHead + rest by {
      assert CommandPrefix(quote, modelName) == ScriptHead + quote(modelName) + SolverFlag;
    }
    assert ScriptHead[0] == 's';
  }

  /** Stripping a front that starts and ends with non-space characters,
      a space and more arguments strips only the arguments' end. */
  lemma StripAfterFront(front: string, args: string)
    requires |front| > 0 && !IsSpace(front[0]) && !IsSpace(front[|front| - 1])
    ensures Strip(front + " " + args) == front + RStripSpace(" " + args)
  {
    var raw := front + " " + args;
    assert raw[0] == front[0];
    assert LStripSpace(raw) == raw;
    assert raw == front + (" " + args);
    RStripAppend(front, " " + args);
  }

  lemma TestArgsStripped(q: string)
    ensures RStripSpace(" " + (" --test-command " + q)) == "  --test-command" + RStripSpace(" " + q)
  {
    assert " " + (" --test-command " + q) == "  --test-command" + (" " + q);
    RStripAppend("  --test-command", " " + q);
  }

  /** A bind mount. */
  datatype Mount = Mount(bind: string, mode: string)

  datatype ContainerKwargs = ContainerKwargs(
    image: string,
    entrypoint: seq<string>,
    environment: map<string, string>,
    user: string,
    volumes: map<string, Mount>)

  /** `get_container_kwargs`. */
  function GetContainerKwargs(quote: string -> string, repoDirectory: string, modelName: string,
                              solverCommand: string, testCommand: Option<string>,
                              environment: map<string, string>, uid: nat, gid: nat): (k: ContainerKwargs)
    ensures k.image == "paulgauthier/aider"
    ensures k.entrypoint == ["/bin/bash", "-c", Script(quote, modelName, solverCommand, testCommand)]
    ensures IsPrefix(ScriptHead, k.entrypoint[2])
    ensures k.environment == environment
    ensures |k.volumes| == 2
    ensures repoDirectory + "/." in k.volumes && k.volumes[repoDirectory + "/."] == Mount("/app", "rw")
    ensures "/tmp/aider_cache" in k.volumes && k.volumes["/tmp/aider_cache"] == Mount("/home/ubuntu", "rw")
  {
    ContainerKwargs(
      "paulgauthier/aider",
      ["/bin/bash", "-c", Script(quote, modelName, solverCommand, testCommand)],
      environment,
      NatToString(uid) + ":" + NatToString(gid),
      Volumes(repoDirectory))
  }

  /** The two bind mounts: the repository as the working directory and the
      aider cache as the home directory. */
  function Volumes(repoDirectory: string): (v: map<string, Mount>)
    ensures |v| == 2
    ensures repoDirectory + "/." in v && v[repoDirectory + "/."] == Mount("/app", "rw")
    ensures "/tmp/aider_cache" in v && v["/tmp/aider_cache"] == Mount("/home/ubuntu", "rw")
  {
    var repoKey := repoDirectory + "/.";
    assert repoKey != "/tmp/aider_cache" by {
      assert repoKey[|repoKey| - 1] == '.';
    }
    var volumes := map[repoKey := Mount("/app", "rw"), "/tmp/aider_cache" := Mount("/home/ubuntu", "rw")];
    assert volumes.Keys == {repoKey, "/tmp/aider_cache"};
    volumes
  }

  /** The user splits on ':' back into the user and group ids. */
  lemma UserNamesIds(quote: string -> string, repoDirectory: string, modelName: string,
                     solverCommand: string, testCommand: Option<string>,
                     environment: map<string, string>, uid: nat, gid: nat)
    ensures var k := GetContainerKwargs(quote, repoDirectory, modelName, solverCommand, testCommand,
                                        environment, uid, gid);
      Split(k.user, ":") == [NatToString(uid), NatToString(gid)]
  {
    var xs := [NatToString(uid), NatToString(gid)];
    forall k | 0 <= k < |xs| ensures ':' !in xs[k] {
      assert AllDigits(xs[k]);
    }
    JoinSplitChar(xs, ':');
    assert Join(xs, ":") == NatToString(uid) + ":" + NatToString(gid) by {
      assert xs[1..] == [NatToString(gid)];
    }
  }

  /** The script `bash -c` runs reads the solver command back from between
      its single quotes, and carries the test command only when one is
      given. */
  lemma ScriptCarriesCommands(quote: string -> string, modelName: string, solverCommand: string,
                              testCommand: Option<string>)
    ensures var script := Script(quote, modelName, solverCommand, testCommand);
      var word := QuotedWord(solverCommand);
      var at := |CommandPrefix(quote, modelName)|;
      && at + |word| <= |script|
      && script[at..at + |word|] == word
      && ShellWord(word) == Some(solverCommand)
      && (!Truthy(testCommand) <==> |script| == at + |word|)
  {
    ScriptPieces(quote, modelName, solverCommand, testCommand);
    WordAt(Script(quote, modelName, solverCommand, testCommand), CommandPrefix(quote, modelName),
           QuotedWord(solverCommand), ScriptTail(quote, testCommand), Truthy(testCommand));
    QuotedWordReadsBack(solverCommand);
  }

  lemma ScriptPieces(quote: string -> string, modelName: string, solverCommand: string,
                     testCommand: Option<string>)
    ensures Script(quote, modelName, solverCommand, testCommand)
         == CommandPrefix(quote, modelName) + QuotedWord(solverCommand) + ScriptTail(quote, testCommand)
  {
  }

  lemma QuotedWordReadsBack(solverCommand: string)
    ensures ShellWord(QuotedWord(solverCommand)) == Some(solverCommand)
  {
    SolverWordReadsBack(solverCommand);
  }

  lemma WordAt(script: string, pre: string, word: string, tail: string, tested: bool)
    requires script == pre + word + tail
    requires tested <==> tail != ""
    ensures |pre| + |word| <= |script| && script[|pre|..|pre| + |word|] == word
    ensures !tested <==> |script| == |pre| + |word|
  {
    assert script[|pre|..|pre| + |word|] == word;
  }
}

/** `aider_solver/modify_repo.py`: run the solver command through an aider
    coder, then, when a test command is given, ask the coder to run the
    tests and fail unless they pass.

    The coder is an oracle: the messages it is sent are returned as a list,
    and the output of the "/test" message is an input. */
module ModifyRepo {
  import opened Wrappers
  import opened Strings

  const TestsFailed := "Tests did not pass or were not found."

  /** The message that asks the coder to run the tests. */
  function TestMessage(testCommand: string): string {
    "/test " + testCommand
  }

  /** Test output that reports a failure or an error. */
  predicate ReportsFailure(output: string) {
    Contains(output, "FAIL") || Contains(output, "ERROR")
  }

  /** `verify_tests`: the messages sent to the coder and the verdict. */
  function VerifyTests(testCommand: Option<string>, testOutput: string): (r: (seq<string>, bool))
    ensures !Truthy(testCommand) ==> r == ([], false)
    ensures Truthy(testCommand) ==> r.0 == [TestMessage(testCommand.value)]
    ensures r.1 <==> Truthy(testCommand) && !ReportsFailure(testOutput)
  {
    if !Truthy(testCommand) then ([], false)
    else ([TestMessage(testCommand.value)], !ReportsFailure(testOutput))
  }

  /** Output with "FAIL" or "ERROR" anywhere in it fails the tests. */
  lemma VerifyTestsFailsOnMarker(cmd: string, before: string, marker: string, after: string)
    requires marker == "FAIL" || marker == "ERROR"
    ensures !VerifyTests(Some(cmd), before + marker + after).1
  {
    ContainsInfix(before, marker, after);
  }

  /** Output without an 'F' or an 'E' passes the tests of any non-empty test
      command. */
  lemma VerifyTestsPassesClean(cmd: string, output: string)
    requires |cmd| > 0 && 'F' !in output && 'E' !in output
    ensures VerifyTests(Some(cmd), output).1
  {
    CharWitness(output, "FAIL", 'F');
    CharWitness(output, "ERROR", 'E');
  }

  /** `modify_repo_with_aider`: the messages sent to the coder, and whether
      it raised. */
  function ModifyRepoWithAider(solverCommand: string, testCommand: Option<string>, testOutput: string)
    : (r: (seq<string>, Result<()>))
    ensures |r.0| > 0 && r.0[0] == solverCommand
    ensures r.0[1..] == VerifyTests(testCommand, testOutput).0
    ensures r.1.Err? <==> Truthy(testCommand) && ReportsFailure(testOutput)
    ensures r.1.Err? ==> r.1.error == Raised(TestsFailed)
  {
    var ran := [solverCommand];
    if Truthy(testCommand) then
      var (tested, ok) := VerifyTests(testCommand, testOutput);
      assert (ran + tested)[1..] == tested;
      if !ok then (ran + tested, Err(Raised(TestsFailed))) else (ran + tested, Ok(()))
    else (ran, Ok(()))
  }

  /** The solver command is sent once, first; every later message is a
      test run, and there is a test run exactly when a test command is
      given. */
  lemma SolverRunsOnceFirst(solverCommand: string, testCommand: Option<string>, testOutput: string)
    ensures var msgs := ModifyRepoWithAider(solverCommand, testCommand, testOutput).0;
      && msgs[0] == solverCommand
      && (forall k :: 1 <= k < |msgs| ==> IsPrefix("/test ", msgs[k]))
      && (|msgs| > 1 <==> Truthy(testCommand))
  {
    var msgs := ModifyRepoWithAider(solverCommand, testCommand, testOutput).0;
    if Truthy(testCommand) {
      assert msgs == [solverCommand, TestMessage(testCommand.value)];
      assert IsPrefix("/test ", msgs[1]) by {
        assert msgs[1][..6] == "/test ";
      }
    }
  }

  /** Without a test command nothing can fail, whatever the coder prints. */
  lemma NoTestCommandNeverRaises(solverCommand: string, testCommand: Option<string>, testOutput: string)
    requires !Truthy(testCommand)
    ensures ModifyRepoWithAider(solverCommand, testCommand, testOutput) == ([solverCommand], Ok(()))
  {
  }
}

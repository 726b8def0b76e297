/**
 * `app.py`: the full variant of the service. A script is screened (blank, no
 * `def main(`, or a denylisted pattern in its lower-cased text), wrapped into a
 * program that prints one `__RESULT_START__ ... __RESULT_END__` line for success
 * and failure alike, run under nsjail with a 30-second limit, and the captured
 * output turned into a JSON body that is always sent with status 200.
 */
module App {
  import opened Wrappers
  import opened PyStr
  import opened Http
  import opened Sandbox
  import opened Markers

  const PythonTimeout: nat := 30

  const EmptyScriptMessage := "Script content cannot be empty"
  const MissingMainMessage := "Script must contain a 'main()' function"
  const DangerousCodePrefix := "Script contains potentially dangerous code: "
  const MainSignature := "def main("

  /** The denylist, searched in this order. */
  const DangerousPatterns: seq<string> := [
    "import subprocess",
    "import os",
    "__import__",
    "exec(",
    "eval(",
    "open(",
    "file(",
    "input(",
    "raw_input("
  ]

  const TimeoutMessage := "Script execution timed out after 30 seconds"
  const ExecutionErrorPrefix := "Execution error: "
  const ParseFailureMessage := "Failed to parse execution result"

  // ---------------------------------------------------------------- screening

  /** The first pattern, from index `from` on, that occurs in `text`; -1 when none does. */
  function FirstMatchFrom(patterns: seq<string>, text: string, from: nat): (k: int)
    ensures k == -1 ==> forall j | from <= j < |patterns| :: !Contains(text, patterns[j])
    ensures k != -1 ==> from <= k < |patterns| && Contains(text, patterns[k])
    ensures k != -1 ==> forall j | from <= j < k :: !Contains(text, patterns[j])
    decreases |patterns| - from
  {
    if from >= |patterns| then -1
    else if Contains(text, patterns[from]) then from
    else FirstMatchFrom(patterns, text, from + 1)
  }

  /** The lower-cased script is free of every denylisted pattern. */
  predicate FreeOfDangerousPatterns(script: string) {
    forall k | 0 <= k < |DangerousPatterns| :: !Contains(Lower(script), DangerousPatterns[k])
  }

  /** The denylist loop on the lower-cased text: the first pattern found is reported. */
  function DenylistVerdict(text: string): (v: Verdict)
    ensures v == Accepted <==> forall k | 0 <= k < |DangerousPatterns| :: !Contains(text, DangerousPatterns[k])
  {
    var k := FirstMatchFrom(DangerousPatterns, text, 0);
    if k == -1 then Accepted else Rejected(DangerousCodePrefix + DangerousPatterns[k])
  }

  /** `validate_script`: the checks run in this order and the first failing one is reported. */
  function ValidateScript(script: string): (v: Verdict)
    ensures v == Accepted <==> !IsBlank(script) && Contains(script, MainSignature) && FreeOfDangerousPatterns(script)
    ensures IsBlank(script) ==> v == Rejected(EmptyScriptMessage)
    ensures !IsBlank(script) && !Contains(script, MainSignature) ==> v == Rejected(MissingMainMessage)
  {
    StripEmptyIffBlank(script);
    if Strip(script) == [] then Rejected(EmptyScriptMessage)
    else if !Contains(script, MainSignature) then Rejected(MissingMainMessage)
    else DenylistVerdict(Lower(script))
  }

  /** A script that passes the first two checks is rejected for the first denylisted pattern it holds. */
  lemma ReportsFirstDangerousPattern(script: string, k: nat)
    requires !IsBlank(script) && Contains(script, MainSignature)
    requires k < |DangerousPatterns| && Contains(Lower(script), DangerousPatterns[k])
    requires forall j | 0 <= j < k :: !Contains(Lower(script), DangerousPatterns[j])
    ensures ValidateScript(script) == Rejected(DangerousCodePrefix + DangerousPatterns[k])
  {
    var m := FirstMatchFrom(DangerousPatterns, Lower(script), 0);
    assert m != -1;
    assert !(m < k) && !(k < m);
  }

  /** Every denylisted pattern is already lower case, so searching the lowered text ignores case. */
  lemma DangerousPatternsAreLowerCase()
    ensures forall k | 0 <= k < |DangerousPatterns| :: Lower(DangerousPatterns[k]) == DangerousPatterns[k]
  {
    forall k | 0 <= k < |DangerousPatterns|
      ensures Lower(DangerousPatterns[k]) == DangerousPatterns[k]
    {
      var p := DangerousPatterns[k];
      forall i | 0 <= i < |p| ensures Lower(p)[i] == p[i] {
        assert !('A' <= p[i] <= 'Z');
      }
    }
  }

  /**
   * The denylist ignores case: a denylisted pattern written in any mix of ASCII
   * upper and lower case gets the script rejected, with a pattern no later in
   * the list.
   */
  lemma DenylistIgnoresCase(script: string, k: nat, i: nat)
    requires !IsBlank(script) && Contains(script, MainSignature)
    requires k < |DangerousPatterns| && OccursAtIgnoringCase(script, DangerousPatterns[k], i)
    ensures exists j | 0 <= j <= k :: ValidateScript(script) == Rejected(DangerousCodePrefix + DangerousPatterns[j])
  {
    DangerousPatternsAreLowerCase();
    ContainsLowerIgnoresCase(script, DangerousPatterns[k]);
    var m := FirstMatchFrom(DangerousPatterns, Lower(script), 0);
    assert 0 <= m <= k;
  }

  // ------------------------------------------------------------------ wrapper

  /** The wrapper text before the user's script. */
  const WrapperHead: string :=
    "\n" +
    "import sys\n" +
    "import json\n" +
    "import io\n" +
    "from contextlib import redirect_stdout\n" +
    "\n" +
    "# User's script\n"

  /** The wrapper text from the user's script up to the success print. */
  const WrapperBody: string :=
    "\n" +
    "\n" +
    "# Execution wrapper\n" +
    "if __name__ == \"__main__\":\n" +
    "    try:\n" +
    "        # Capture stdout\n" +
    "        stdout_capture = io.StringIO()\n" +
    "        \n" +
    "        with redirect_stdout(stdout_capture):\n" +
    "            result = main()\n" +
    "        \n" +
    "        # Get captured output\n" +
    "        stdout_content = stdout_capture.getvalue()\n" +
    "        \n" +
    "        # Ensure result is JSON serializable\n" +
    "        if result is None:\n" +
    "            result = None\n" +
    "        \n" +
    "        # Create response\n" +
    "        response = {\n" +
    "            \"result\": result,\n" +
    "            \"stdout\": stdout_content,\n" +
    "            \"error\": None\n" +
    "        }\n" +
    "        \n"

  /** The line printing the success record between the result markers. */
  const SuccessPrint: string :=
    "        print(\"" + ResultStart + "\" + json.dumps(response) + \"" + ResultEnd + "\")\n"

  /** The wrapper text between the two prints. */
  const WrapperHandler: string :=
    "        \n" +
    "    except Exception as e:\n" +
    "        error_response = {\n" +
    "            \"result\": None,\n" +
    "            \"stdout\": \"\",\n" +
    "            \"error\": str(e)\n" +
    "        }\n"

  /** The line printing the failure record, between the same result markers. */
  const FailurePrint: string :=
    "        print(\"" + ResultStart + "\" + json.dumps(error_response) + \"" + ResultEnd + "\")\n"

  /** The wrapper's last line. */
  const WrapperExit: string := "        sys.exit(1)\n"

  const WrapperTail: string := WrapperBody + SuccessPrint + WrapperHandler + FailurePrint + WrapperExit

  /**
   * `create_execution_script`: the user's script verbatim between a fixed head and
   * a fixed tail, so that the program prints both outcomes with the one
   * result-marker pair whatever the script is.
   */
  function CreateExecutionScript(userScript: string): string {
    Embed(WrapperHead, userScript, WrapperTail)
  }

  /**
   * The program holds the script verbatim right after the head, and both the
   * success print and the failure print, whatever the script is.
   */
  lemma CreateExecutionScriptHoldsScript(userScript: string)
    ensures |CreateExecutionScript(userScript)| == |WrapperHead| + |userScript| + |WrapperTail|
    ensures CreateExecutionScript(userScript)[..|WrapperHead|] == WrapperHead
    ensures CreateExecutionScript(userScript)[|WrapperHead|..|WrapperHead| + |userScript|] == userScript
    ensures Contains(CreateExecutionScript(userScript), SuccessPrint) && Contains(CreateExecutionScript(userScript), FailurePrint)
  {
    EmbedParts(WrapperHead, userScript, WrapperTail);
    EmbedHoldsLines(WrapperHead, userScript, WrapperBody, SuccessPrint, WrapperHandler, FailurePrint, WrapperExit);
  }

  /** Two different scripts never yield the same program. */
  lemma CreateExecutionScriptInjective(a: string, b: string)
    requires CreateExecutionScript(a) == CreateExecutionScript(b)
    ensures a == b
  {
    EmbedInjective(WrapperHead, a, b, WrapperTail);
  }

  // ------------------------------------------------------------- interpreter

  /** `{"result": None, "stdout": stdout, "error": error}`. */
  function FailureRecord(stdout: string, error: string): (record: Json)
    ensures record.JObject? && record.fields.Keys == {"result", "stdout", "error"}
    ensures record.fields["result"] == JNull
    ensures record.fields["stdout"] == JString(stdout) && record.fields["error"] == JString(error)
  {
    JObject(map["result" := JNull, "stdout" := JString(stdout), "error" := JString(error)])
  }

  /** The document between the result markers, when both occur and the text parses. */
  function DecodedResult(parse: Parser, extraction: Extraction, stdout: string): (d: Option<Json>)
    ensures d.Some? <==>
      && Contains(stdout, ResultStart) && Contains(stdout, ResultEnd)
      && parse(Extract(extraction, stdout, ResultStart, ResultEnd).value).Some?
    ensures d.Some? ==> d == parse(Extract(extraction, stdout, ResultStart, ResultEnd).value)
  {
    match Extract(extraction, stdout, ResultStart, ResultEnd)
    case Some(payload) => parse(payload)
    case None => None
  }

  /**
   * `execute_with_nsjail` after the run: the decoded payload when there is one;
   * otherwise a record with a null result carrying the full stdout and stderr (or
   * a fixed message when stderr is empty); a fixed record for a timeout; and the
   * exception text for any other failure.
   */
  function ExecuteWithNsjail(parse: Parser, extraction: Extraction, outcome: RunOutcome): (result: Json)
    ensures outcome.Completed? && DecodedResult(parse, extraction, outcome.stdout).Some? ==>
      result == DecodedResult(parse, extraction, outcome.stdout).value
    ensures outcome.Completed? && DecodedResult(parse, extraction, outcome.stdout).None? ==>
      result == FailureRecord(outcome.stdout, if outcome.stderr != "" then outcome.stderr else ParseFailureMessage)
    ensures outcome.TimedOut? ==> result == FailureRecord("", TimeoutMessage)
    ensures outcome.Failed? ==> result == FailureRecord("", ExecutionErrorPrefix + outcome.reason)
  {
    match outcome
    case Completed(stdout, stderr, _) =>
      (match DecodedResult(parse, extraction, stdout)
       case Some(document) => document
       case None => FailureRecord(stdout, if stderr != "" then stderr else ParseFailureMessage))
    case TimedOut => FailureRecord("", TimeoutMessage)
    case Failed(reason) => FailureRecord("", ExecutionErrorPrefix + reason)
  }

  /** The child's return code never changes the result. */
  lemma ReturnCodeIgnored(parse: Parser, extraction: Extraction, stdout: string, stderr: string, rc1: int, rc2: int)
    ensures ExecuteWithNsjail(parse, extraction, Completed(stdout, stderr, rc1))
         == ExecuteWithNsjail(parse, extraction, Completed(stdout, stderr, rc2))
  {
  }

  /** Whenever no document is decoded, the record explains why with a non-empty error text. */
  lemma FallbackAlwaysExplains(parse: Parser, extraction: Extraction, outcome: RunOutcome)
    requires !(outcome.Completed? && DecodedResult(parse, extraction, outcome.stdout).Some?)
    ensures var r := ExecuteWithNsjail(parse, extraction, outcome);
      r.JObject? && r.fields["result"] == JNull && r.fields["error"].JString? && r.fields["error"].text != ""
  {
  }

  // ---------------------------------------------------------------- endpoint

  /**
   * `POST /execute` on a JSON body whose `script` field is `script` (None when
   * the field is missing); `child` is how the sandboxed child behaves when given
   * a program. With `FirstEnd` this is the service as written.
   */
  function ExecuteScript(parse: Parser, extraction: Extraction, script: Option<string>, child: string -> ChildRun): (h: Handled)
    ensures script.None? ==> h == Handled(ErrorResponse(400, MissingScriptMessage), None)
    ensures script.Some? && ValidateScript(script.value).Rejected? ==>
      h == Handled(ErrorResponse(400, ValidateScript(script.value).message), None)
    ensures h.launched.Some? <==> script.Some? && ValidateScript(script.value) == Accepted
    ensures h.launched.Some? ==>
      && h.launched.value == CreateExecutionScript(script.value)
      && h.response == Response(200, ExecuteWithNsjail(parse, extraction, Run(PythonTimeout, child(h.launched.value))))
  {
    match script
    case None => Handled(ErrorResponse(400, MissingScriptMessage), None)
    case Some(s) =>
      match ValidateScript(s)
      case Rejected(message) => Handled(ErrorResponse(400, message), None)
      case Accepted =>
        var program := CreateExecutionScript(s);
        Handled(Response(200, ExecuteWithNsjail(parse, extraction, Run(PythonTimeout, child(program)))), Some(program))
  }

  /** Status 400 means the script never ran; every run, whatever its outcome, answers 200. */
  lemma StatusTellsWhetherScriptRan(parse: Parser, extraction: Extraction, script: Option<string>, child: string -> ChildRun)
    ensures var h := ExecuteScript(parse, extraction, script, child);
      && (h.response.status == 200 <==> h.launched.Some?)
      && (h.response.status == 400 <==> h.launched.None?)
  {
    match script
    case None =>
    case Some(s) =>
      if ValidateScript(s) == Accepted {
        assert ExecuteScript(parse, extraction, script, child).launched.Some?;
      }
  }

  /**
   * A run that ends in time having printed only the wrapper's line yields that
   * payload's document. As written this needs a payload without an end marker of
   * its own; corrected, it holds whatever the payload is.
   */
  lemma WrapperLineDecodes(parse: Parser, extraction: Extraction, payload: string, stderr: string, rc: int)
    requires extraction == FirstEnd ==>
      NoOccurrenceBefore(ResultStart + payload + ResultEnd, ResultEnd, |ResultStart + payload|)
    requires parse(payload).Some?
    ensures ExecuteWithNsjail(parse, extraction, Completed(ResultStart + payload + ResultEnd + "\n", stderr, rc))
         == parse(payload).value
  {
    ExtractWrapperLine(extraction, payload);
  }

  /**
   * End to end: an accepted script whose program finishes in time and prints only
   * the wrapper's line gets that payload's document back with status 200.
   */
  lemma {:induction false} AcceptedScriptReturnsPrintedDocument(
    parse: Parser, extraction: Extraction, script: string, child: string -> ChildRun,
    payload: string, stderr: string, rc: int, elapsed: real)
    requires ValidateScript(script) == Accepted
    requires child(CreateExecutionScript(script)) == Exits(ResultStart + payload + ResultEnd + "\n", stderr, rc, elapsed)
    requires elapsed <= PythonTimeout as real
    requires extraction == FirstEnd ==>
      NoOccurrenceBefore(ResultStart + payload + ResultEnd, ResultEnd, |ResultStart + payload|)
    requires parse(payload).Some?
    ensures ExecuteScript(parse, extraction, Some(script), child).response == Response(200, parse(payload).value)
  {
    var line := ResultStart + payload + ResultEnd + "\n";
    var outcome := Run(PythonTimeout, child(CreateExecutionScript(script)));
    assert ExecuteScript(parse, extraction, Some(script), child).response
        == Response(200, ExecuteWithNsjail(parse, extraction, outcome));
    assert outcome == Completed(line, stderr, rc);
    WrapperLineDecodes(parse, extraction, payload, stderr, rc);
    assert ExecuteWithNsjail(parse, extraction, outcome) == parse(payload).value;
  }

  // ------------------------------------------------------- examples of use

  /** `print('no main')` is turned away for lacking `main()`. */
  lemma NoMainScriptRejected()
    ensures ExecuteScript(p => None, FirstEnd, Some("print('no main')"), _ => NeverExits).response
         == ErrorResponse(400, MissingMainMessage)
  {
    var s := "print('no main')";
    assert !IsSpace(s[0]);
    AbsentCharExcludes(s, MainSignature, 0);
  }
}

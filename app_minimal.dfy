/**
 * `app-minimal.py`: the lighter variant. A blank script is refused at the
 * endpoint, `validate_script` only demands `def main(` (dangerous imports are
 * merely logged), the wrapper reports success and failure with two different
 * marker pairs, the program runs as a plain subprocess (30 s) or under nsjail
 * (35 s), and the captured output is classified by a chain of early returns.
 */
module AppMinimal {
  import opened Wrappers
  import opened PyStr
  import opened Http
  import opened Sandbox
  import opened Markers

  const MaxExecutionTime: nat := 30

  const BlankScriptMessage := "Script cannot be empty"
  const EmptyScriptMessage := "Script content cannot be empty"
  const MissingMainMessage := "Script must contain a 'main()' function"
  const MainSignature := "def main("

  /** The modules whose import `validate_script` logs a warning for, in this order. */
  const DangerousImports: seq<string> := ["os", "sys", "subprocess", "socket", "urllib", "requests"]

  const DefaultScriptFailure := "Script execution failed"
  const ErrorPayloadUnparsable := "Script execution failed with parsing error"
  const ResultPayloadUnparsable := "Failed to parse execution result"
  const StderrPrefix := "Script execution error: "
  const NoResultMessage := "Script execution failed - no result returned"

  // ---------------------------------------------------------------- screening

  /** `f'import {name}' in script or f'from {name}' in script`: only scripts naming the module are flagged. */
  predicate MentionsImport(script: string, name: string): (mentioned: bool)
    ensures mentioned ==> Contains(script, name)
  {
    ContainsTail(script, "import ", name);
    ContainsTail(script, "from ", name);
    Contains(script, "import " + name) || Contains(script, "from " + name)
  }

  /** The modules, from index `from` of the list on, that the logging loop warns about. */
  function FlaggedImportsFrom(script: string, from: nat): (flagged: seq<string>)
    ensures forall k | from <= k < |DangerousImports| ::
      DangerousImports[k] in flagged <==> MentionsImport(script, DangerousImports[k])
    ensures forall d | d in flagged :: d in DangerousImports && MentionsImport(script, d)
    decreases |DangerousImports| - from
  {
    if from >= |DangerousImports| then []
    else
      var rest := FlaggedImportsFrom(script, from + 1);
      assert forall k | from < k < |DangerousImports| :: DangerousImports[k] != DangerousImports[from];
      if MentionsImport(script, DangerousImports[from]) then [DangerousImports[from]] + rest else rest
  }

  /**
   * `validate_script`: blank scripts and scripts without `def main(` are refused;
   * nothing else is, whatever the script imports.
   */
  function ValidateScript(script: string): (v: Verdict)
    ensures v == Accepted <==> !IsBlank(script) && Contains(script, MainSignature)
    ensures IsBlank(script) ==> v == Rejected(EmptyScriptMessage)
    ensures !IsBlank(script) && !Contains(script, MainSignature) ==> v == Rejected(MissingMainMessage)
  {
    StripEmptyIffBlank(script);
    if Strip(script) == [] then Rejected(EmptyScriptMessage)
    else if !Contains(script, MainSignature) then Rejected(MissingMainMessage)
    else Accepted
  }

  // ------------------------------------------------------------------ wrapper

  /** The wrapper text before the user's script. */
  const WrapperHead: string :=
    "\n" +
    "import sys\n" +
    "import json\n" +
    "import io\n" +
    "from contextlib import redirect_stdout\n" +
    "\n" +
    "# User's script\n"

  /** The wrapper text from the user's script up to the success print. */
  const WrapperBody: string :=
    "\n" +
    "\n" +
    "# Execution wrapper\n" +
    "if __name__ == \"__main__\":\n" +
    "    try:\n" +
    "        # Capture stdout\n" +
    "        stdout_capture = io.StringIO()\n" +
    "        \n" +
    "        with redirect_stdout(stdout_capture):\n" +
    "            result = main()\n" +
    "        \n" +
    "        # Get captured output\n" +
    "        stdout_content = stdout_capture.getvalue()\n" +
    "        \n" +
    "        # Validate that result is JSON serializable\n" +
    "        try:\n" +
    "            json.dumps(result)\n" +
    "        except (TypeError, ValueError) as e:\n" +
    "            raise ValueError(f\"main() function must return JSON-serializable data, got: {type(result).__name__}\")\n" +
    "        \n" +
    "        # Create response\n" +
    "        response = {\n" +
    "            \"result\": result,\n" +
    "            \"stdout\": stdout_content\n" +
    "        }\n" +
    "        \n"

  /** The line printing the success record between the result markers. */
  const SuccessPrint: string :=
    "        print(\"" + ResultStart + "\" + json.dumps(response) + \"" + ResultEnd + "\")\n"

  /** The wrapper text between the two prints. */
  const WrapperHandler: string :=
    "        \n" +
    "    except Exception as e:\n" +
    "        error_response = {\n" +
    "            \"error\": str(e)\n" +
    "        }\n"

  /** The line printing the failure record between the error markers. */
  const FailurePrint: string :=
    "        print(\"" + ErrorStart + "\" + json.dumps(error_response) + \"" + ErrorEnd + "\")\n"

  /** The wrapper's last line. */
  const WrapperExit: string := "        sys.exit(1)\n"

  const WrapperTail: string := WrapperBody + SuccessPrint + WrapperHandler + FailurePrint + WrapperExit

  /**
   * The inline wrapper template: the user's script verbatim between a fixed head
   * and a fixed tail, so that success is printed between the result markers and
   * failure between the error markers whatever the script is.
   */
  function WrapperScript(script: string): string {
    Embed(WrapperHead, script, WrapperTail)
  }

  /**
   * The program holds the script verbatim right after the head, and both the
   * success print and the failure print, whatever the script is.
   */
  lemma WrapperScriptHoldsScript(script: string)
    ensures |WrapperScript(script)| == |WrapperHead| + |script| + |WrapperTail|
    ensures WrapperScript(script)[..|WrapperHead|] == WrapperHead
    ensures WrapperScript(script)[|WrapperHead|..|WrapperHead| + |script|] == script
    ensures Contains(WrapperScript(script), SuccessPrint) && Contains(WrapperScript(script), FailurePrint)
  {
    EmbedParts(WrapperHead, script, WrapperTail);
    EmbedHoldsLines(WrapperHead, script, WrapperBody, SuccessPrint, WrapperHandler, FailurePrint, WrapperExit);
  }

  /** Two different scripts never yield the same program. */
  lemma WrapperScriptInjective(a: string, b: string)
    requires WrapperScript(a) == WrapperScript(b)
    ensures a == b
  {
    EmbedInjective(WrapperHead, a, b, WrapperTail);
  }

  // ------------------------------------------------------------------ runners

  /** `execute_with_subprocess` or `execute_with_nsjail`. */
  datatype Runner = Subprocess | Nsjail

  /** nsjail is used only when it is switched on and its binary is installed. */
  function SelectRunner(useNsjail: bool, nsjailInstalled: bool): (runner: Runner)
    ensures runner == Nsjail <==> useNsjail && nsjailInstalled
  {
    if useNsjail && nsjailInstalled then Nsjail else Subprocess
  }

  /** The `timeout=` each runner passes to `subprocess.run`. */
  function TimeLimit(runner: Runner): (limit: nat)
    ensures limit == MaxExecutionTime <==> runner == Subprocess
    ensures runner == Nsjail ==> limit == MaxExecutionTime + 5
  {
    match runner
    case Subprocess => MaxExecutionTime
    case Nsjail => MaxExecutionTime + 5
  }

  /** The `ValueError` text each runner raises on `TimeoutExpired`. */
  function TimeoutMessage(runner: Runner): (message: string)
    ensures |message| >= 19 && message[..19] == "Execution timed out"
    ensures message == "Execution timed out after 30 seconds" <==> runner == Subprocess
    ensures runner == Subprocess ==> message == "Execution timed out after 30 seconds"
    ensures runner == Nsjail ==> message == "Execution timed out"
  {
    match runner
    case Subprocess => "Execution timed out after 30 seconds"
    case Nsjail => "Execution timed out"
  }

  /** The prefix each runner puts before the text of any other exception. */
  function FailurePrefix(runner: Runner): (prefix: string)
    ensures prefix == "Execution error: " <==> runner == Subprocess
    ensures prefix == "nsjail execution error: " <==> runner == Nsjail
  {
    match runner
    case Subprocess => "Execution error: "
    case Nsjail => "nsjail execution error: "
  }

  /** A runner's result: the captured record, or the `ValueError` it raises. */
  datatype Execution =
    | Captured(stdout: string, stderr: string, returnCode: int)
    | Raised(message: string)

  /** Run the program with the runner's limit and turn exceptions into `ValueError` messages. */
  function ExecuteWith(runner: Runner, child: ChildRun): (e: Execution)
    ensures e.Captured? <==> child.Exits? && child.elapsed <= TimeLimit(runner) as real
    ensures e.Captured? ==> e == Captured(child.stdout, child.stderr, child.returnCode)
    ensures child.NeverExits? || (child.Exits? && child.elapsed > TimeLimit(runner) as real) ==>
      e == Raised(TimeoutMessage(runner))
    ensures child.CannotStart? ==> e == Raised(FailurePrefix(runner) + child.reason)
  {
    match Run(TimeLimit(runner), child)
    case Completed(stdout, stderr, rc) => Captured(stdout, stderr, rc)
    case TimedOut => Raised(TimeoutMessage(runner))
    case Failed(reason) => Raised(FailurePrefix(runner) + reason)
  }

  /** A child running between 30 and 35 seconds times out as a subprocess but completes under nsjail. */
  lemma NsjailAllowsFiveMoreSeconds(stdout: string, stderr: string, rc: int, elapsed: real)
    requires MaxExecutionTime as real < elapsed <= (MaxExecutionTime + 5) as real
    ensures ExecuteWith(Subprocess, Exits(stdout, stderr, rc, elapsed)) == Raised("Execution timed out after 30 seconds")
    ensures ExecuteWith(Nsjail, Exits(stdout, stderr, rc, elapsed)) == Captured(stdout, stderr, rc)
  {
  }

  // ------------------------------------------------------------- interpreter

  /** `jsonify({"error": error_data.get("error", "Script execution failed")}), 400`, or 500 where `.get` does not exist. */
  function ErrorPayloadResponse(document: Json): (r: Response)
    ensures document.JObject? && "error" in document.fields ==>
      r == Response(400, JObject(map["error" := document.fields["error"]]))
    ensures document.JObject? && "error" !in document.fields ==> r == ErrorResponse(400, DefaultScriptFailure)
    ensures !document.JObject? ==> r == ErrorResponse(500, InternalErrorMessage)
  {
    match document
    case JObject(fields) =>
      Response(400, JObject(map["error" := if "error" in fields then fields["error"] else JString(DefaultScriptFailure)]))
    case _ => ErrorResponse(500, InternalErrorMessage)
  }

  /** Both markers of a pair occur in the output. */
  predicate HasPair(stdout: string, start: string, end: string) {
    Contains(stdout, start) && Contains(stdout, end)
  }

  /**
   * The classification chain of `execute` on the captured streams: error markers,
   * then result markers, then stderr, then a generic failure.
   */
  function InterpretOutput(parse: Parser, extraction: Extraction, stdout: string, stderr: string): (r: Response)
    ensures HasPair(stdout, ErrorStart, ErrorEnd) ==>
      r == match parse(Extract(extraction, stdout, ErrorStart, ErrorEnd).value)
           case None => ErrorResponse(400, ErrorPayloadUnparsable)
           case Some(document) => ErrorPayloadResponse(document)
    ensures r.status == 200 <==>
      && !HasPair(stdout, ErrorStart, ErrorEnd)
      && HasPair(stdout, ResultStart, ResultEnd)
      && parse(Extract(extraction, stdout, ResultStart, ResultEnd).value).Some?
    ensures r.status == 200 ==> r.body == parse(Extract(extraction, stdout, ResultStart, ResultEnd).value).value
    ensures
      && !HasPair(stdout, ErrorStart, ErrorEnd)
      && HasPair(stdout, ResultStart, ResultEnd)
      && parse(Extract(extraction, stdout, ResultStart, ResultEnd).value).None?
      ==> r == ErrorResponse(400, ResultPayloadUnparsable)
    ensures !HasPair(stdout, ErrorStart, ErrorEnd) && !HasPair(stdout, ResultStart, ResultEnd) ==>
      r == ErrorResponse(400, if stderr != "" then StderrPrefix + stderr else NoResultMessage)
  {
    match Extract(extraction, stdout, ErrorStart, ErrorEnd)
    case Some(errorJson) =>
      (match parse(errorJson)
       case None => ErrorResponse(400, ErrorPayloadUnparsable)
       case Some(document) => ErrorPayloadResponse(document))
    case None =>
      match Extract(extraction, stdout, ResultStart, ResultEnd)
      case Some(resultJson) =>
        (match parse(resultJson)
         case None => ErrorResponse(400, ResultPayloadUnparsable)
         case Some(document) => Response(200, document))
      case None =>
        if stderr != "" then ErrorResponse(400, StderrPrefix + stderr)
        else ErrorResponse(400, NoResultMessage)
  }

  /** Once both error markers are present, neither stderr nor any result markers matter. */
  lemma ErrorMarkersTakePrecedence(parse: Parser, extraction: Extraction, stdout: string, stderr1: string, stderr2: string)
    requires HasPair(stdout, ErrorStart, ErrorEnd)
    ensures InterpretOutput(parse, extraction, stdout, stderr1) == InterpretOutput(parse, extraction, stdout, stderr2)
    ensures InterpretOutput(parse, extraction, stdout, stderr1).status != 200
  {
  }

  /** The response to a runner's result. */
  function Respond(parse: Parser, extraction: Extraction, execution: Execution): (r: Response)
    ensures execution.Raised? ==> r == ErrorResponse(400, execution.message)
    ensures execution.Captured? ==> r == InterpretOutput(parse, extraction, execution.stdout, execution.stderr)
  {
    match execution
    case Raised(message) => ErrorResponse(400, message)
    case Captured(stdout, stderr, _) => InterpretOutput(parse, extraction, stdout, stderr)
  }

  // ---------------------------------------------------------------- endpoint

  /**
   * `POST /execute` on a JSON body whose `script` field is `script` (None when
   * missing), with `USE_NSJAIL` and the presence of the nsjail binary as inputs;
   * `child` is how the child behaves when given a program. With `FirstEnd` this
   * is the service as written.
   */
  function Execute(parse: Parser, extraction: Extraction, script: Option<string>, useNsjail: bool, nsjailInstalled: bool,
                   child: string -> ChildRun): (h: Handled)
    ensures script.None? ==> h == Handled(ErrorResponse(400, MissingScriptMessage), None)
    ensures script.Some? && IsBlank(script.value) ==> h == Handled(ErrorResponse(400, BlankScriptMessage), None)
    ensures script.Some? && !IsBlank(script.value) && !Contains(script.value, MainSignature) ==>
      h == Handled(ErrorResponse(400, MissingMainMessage), None)
    ensures h.launched.Some? <==> script.Some? && ValidateScript(script.value) == Accepted
    ensures h.launched.Some? ==>
      && h.launched.value == WrapperScript(script.value)
      && h.response == Respond(parse, extraction, ExecuteWith(SelectRunner(useNsjail, nsjailInstalled), child(h.launched.value)))
  {
    match script
    case None => Handled(ErrorResponse(400, MissingScriptMessage), None)
    case Some(s) =>
      StripEmptyIffBlank(s);
      if Strip(s) == [] then Handled(ErrorResponse(400, BlankScriptMessage), None)
      else
        match ValidateScript(s)
        case Rejected(message) => Handled(ErrorResponse(400, message), None)
        case Accepted =>
          var program := WrapperScript(s);
          var execution := ExecuteWith(SelectRunner(useNsjail, nsjailInstalled), child(program));
          Handled(Respond(parse, extraction, execution), Some(program))
  }

  /**
   * `validate_script`'s own "Script content cannot be empty" never comes out of
   * the screening: the endpoint's blank check answers first.
   */
  lemma ValidateEmptyMessageUnreachable(parse: Parser, extraction: Extraction, script: Option<string>,
                                        useNsjail: bool, nsjailInstalled: bool, child: string -> ChildRun)
    ensures var h := Execute(parse, extraction, script, useNsjail, nsjailInstalled, child);
      h.launched.None? ==> h.response != ErrorResponse(400, EmptyScriptMessage)
  {
    assert |BlankScriptMessage| != |EmptyScriptMessage| && |MissingMainMessage| != |EmptyScriptMessage|;
    ErrorResponsesDiffer(400, BlankScriptMessage, EmptyScriptMessage);
    ErrorResponsesDiffer(400, MissingMainMessage, EmptyScriptMessage);
    ErrorResponsesDiffer(400, MissingScriptMessage, EmptyScriptMessage);
  }

  /** The child's return code never changes the response. */
  lemma ReturnCodeIgnored(parse: Parser, extraction: Extraction, stdout: string, stderr: string, rc1: int, rc2: int)
    ensures Respond(parse, extraction, Captured(stdout, stderr, rc1)) == Respond(parse, extraction, Captured(stdout, stderr, rc2))
  {
  }

  /** A run that never ends is a client error carrying the runner's timeout message. */
  lemma HungScriptTimesOut(parse: Parser, extraction: Extraction, script: string, useNsjail: bool, nsjailInstalled: bool,
                           child: string -> ChildRun)
    requires ValidateScript(script) == Accepted
    requires child(WrapperScript(script)) == NeverExits
    ensures Execute(parse, extraction, Some(script), useNsjail, nsjailInstalled, child).response
         == ErrorResponse(400, TimeoutMessage(SelectRunner(useNsjail, nsjailInstalled)))
  {
    var runner := SelectRunner(useNsjail, nsjailInstalled);
    assert Execute(parse, extraction, Some(script), useNsjail, nsjailInstalled, child).response
        == Respond(parse, extraction, ExecuteWith(runner, child(WrapperScript(script))));
    assert ExecuteWith(runner, child(WrapperScript(script))) == Raised(TimeoutMessage(runner));
  }

  /**
   * End to end: an accepted script whose program finishes in time and prints only
   * the wrapper's success line, with no complete error-marker pair in it, gets
   * that payload's document with 200. As written this needs a payload without an
   * end marker of its own; corrected, it holds whatever else the payload is.
   */
  lemma {:induction false} AcceptedScriptReturnsPrintedDocument(
    parse: Parser, extraction: Extraction, script: string, useNsjail: bool, nsjailInstalled: bool,
    child: string -> ChildRun, payload: string, stderr: string, rc: int, elapsed: real)
    requires ValidateScript(script) == Accepted
    requires child(WrapperScript(script)) == Exits(ResultStart + payload + ResultEnd + "\n", stderr, rc, elapsed)
    requires elapsed <= MaxExecutionTime as real
    requires extraction == FirstEnd ==>
      NoOccurrenceBefore(ResultStart + payload + ResultEnd, ResultEnd, |ResultStart + payload|)
    requires !HasPair(ResultStart + payload + ResultEnd + "\n", ErrorStart, ErrorEnd)
    requires parse(payload).Some?
    ensures Execute(parse, extraction, Some(script), useNsjail, nsjailInstalled, child).response
         == Response(200, parse(payload).value)
  {
    var line := ResultStart + payload + ResultEnd + "\n";
    ExtractWrapperLine(extraction, payload);
    assert InterpretOutput(parse, extraction, line, stderr) == Response(200, parse(payload).value);
    assert ExecuteWith(SelectRunner(useNsjail, nsjailInstalled), child(WrapperScript(script))) == Captured(line, stderr, rc);
  }
}

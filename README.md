# Python code-runner service, modelled in Dafny

The service takes a Python script in a JSON request (`POST /execute`, field
`script`). It screens the script and wraps it into a program that calls the
script's `main()`. It runs that program in a child process, then turns the
child's captured output into an HTTP response. The wrapped program prints its
outcome as JSON between textual markers (`__RESULT_START__ … __RESULT_END__`),
and the service slices the text between them out of standard output.

There are two variants, and the model covers both.

- `app.py`: the full variant.
  - Screening: refuses blank scripts, scripts without `def main(`, and scripts whose lower-cased text holds one of nine denylisted patterns. It reports the first denylisted pattern in list order.
  - Wrapper: prints success and failure between the same marker pair.
  - Runs the program under nsjail for at most 30 seconds.
  - Always answers 200 once the script has run, with either the decoded document or a fallback record `{"result": null, "stdout": …, "error": …}`.
- `app-minimal.py`: the lighter variant.
  - Screening: the endpoint refuses blank scripts itself, and `validate_script` only demands `def main(`. Dangerous imports are logged, never refused.
  - Wrapper: prints failures between a separate `__ERROR_START__ … __ERROR_END__` pair.
  - Runs the program as a plain subprocess (30 s) or under nsjail (35 s). nsjail is used only when it is switched on and installed.
  - Classifies the output with a chain of early returns: error markers, then result markers, then stderr, then a generic failure.

Modules:

- `Wrappers`: `Option`.
- `PyStr`: the Python `str` operations the service uses. These are `in`, `find`, `rfind`, slicing, `strip` and `lower`. `find` and `rfind` have contracts in terms of occurrences, and `lstrip` and `rstrip` in terms of blank runs. `lower` and `strip` are plain definitions, tied to reference definitions by lemmas (`ContainsLowerIgnoresCase`, `StripEmptyIffBlank`). Slicing is used as defined.
- `Http`: JSON documents, responses, screening verdicts, and the outcome of one request. An outcome is the response plus the program text handed to the child, if any.
- `Sandbox`: the child's behaviour, and what `subprocess.run(..., timeout=…)` makes of it.
- `Markers`: payload extraction between markers. `Extraction` selects the extraction as written (`FirstEnd`) or the corrected one described under Findings (`LastEnd`).
- `App`: `app.py`.
- `AppMinimal`: `app-minimal.py`.
- `Variants`: the two variants compared, and worked examples on concrete scripts.

The model takes three things as parameters:

- **`json.loads`** is a parameter `parse: string -> Option<Json>`. `None` stands for `JSONDecodeError`; the other exceptions `json.loads` can raise are under Left out.
- **The child process** is a parameter `child: string -> ChildRun`. Given the program text, it says whether the child exits and with what output and running time, never exits, or cannot be started.
- **The marker extraction** is a parameter `extraction: Extraction` of each endpoint. With `FirstEnd` the endpoint is the service as written; with `LastEnd` it is the corrected service.

## Model

| member | source | states |
|---|---|---|
| PyStr.FindFrom | app.py:136-137 | the left-to-right scan returns -1 only if no occurrence starts at or after `from`, and otherwise the first occurrence from there |
| PyStr.Find | app.py:136-137 | `s.find(p)` is -1 exactly when `p not in s`, and otherwise the index of the first occurrence |
| PyStr.RFindFrom | app.py:137 | the right-to-left scan returns the last occurrence at or before `upto`, or -1 when there is none (used only by the corrected extraction) |
| PyStr.RFind | app.py:137 | `s.rfind(p)` is -1 exactly when `p not in s`, and otherwise an occurrence with none after it |
| PyStr.StripLeading | app.py:23 | `lstrip` removes exactly a leading blank run, and what remains does not start with whitespace |
| PyStr.StripTrailing | app.py:23 | `rstrip` removes exactly a trailing blank run, and what remains does not end with whitespace |
| PyStr.StripEmptyIffBlank | app.py:23 | `not s or not s.strip()` holds exactly when every character of `s` is whitespace |
| PyStr.ContainsLowerIgnoresCase | app.py:41-43 | for a lower-case pattern, searching `s.lower()` finds a match exactly when `s` matches the pattern ignoring ASCII case |
| PyStr.AbsentAfterLower | app.py:41 | a letter missing from `s` in both cases is missing from `s.lower()` |
| PyStr.EmbedParts | app.py:49-96 | text placed between a fixed head and a fixed tail sits at fixed offsets: the head, then the text verbatim, then the tail |
| PyStr.EmbedInjective | app.py:49-96 | the embedded text can be read back, so different texts give different embeddings |
| PyStr.EmbedHoldsLines | app.py:85-93 | two lines that the tail holds occur in the embedding whatever text is embedded |
| Sandbox.Run | app.py:124-129 | the child times out exactly when it never exits or runs longer than the limit; otherwise the caller gets the streams as the child delivers them (already decoded and newline-translated) and its exit code, or the exception text |
| Sandbox.RunMonotone | app-minimal.py:41-72 | a child that finishes within a limit finishes, with the same output, within any larger limit |
| Markers.ExtractPayload | app.py:133-138 | the extraction as written exists exactly when both markers occur, and the payload never contains the end marker |
| Markers.ExtractAt | app.py:133-138 | the payload as written is `output[i + len(start):j]` for the first start marker at `i` and the first end marker at `j`, empty when `j` comes first |
| Markers.ExtractRecoversPayload | app.py:133-141 | the payload printed between the markers is recovered exactly, whatever follows, when no earlier marker occurs |
| Markers.PayloadHoldingEndIsCut | app.py:137 | as written, a payload that holds the end marker is never recovered intact |
| Markers.ReturningEndMarkerLosesResult | app.py:85-137 | the record printed for `return "__RESULT_END__"` is cut at the inner marker |
| Markers.ExtractPayloadToLastEnd | app.py:133-138 | the corrected extraction exists exactly when both markers occur |
| Markers.ExtractToLastAt | app.py:133-138 | the corrected payload is `output[i + len(start):j]` for the first start marker at `i` and the last end marker at `j`, empty when `j` comes first |
| Markers.LastEndRecoversAnyPayload | app.py:137 | with the last end marker, any printed payload is recovered, markers included |
| Markers.NoEndMarkerAfterLine | app.py:85 | nothing after the wrapper's closing marker and newline can be read as another end marker |
| Markers.LastEndRecoversWrapperLine | app.py:85-137 | the corrected extraction recovers any payload from the wrapper's output line |
| Markers.ReturningEndMarkerKeepsResultWhenCorrected | app.py:85-137 | the corrected extraction recovers the record the as-written one cuts |
| Markers.Extract | app.py:133-138 | either extraction exists exactly when both markers occur; the one as written never returns a payload holding the end marker |
| Markers.ExtractWrapperLine | app.py:85-138 | from the wrapper's output line, the corrected extraction recovers any payload, and the one as written recovers every payload without an end marker of its own |
| App.FirstMatchFrom | app.py:42-44 | the denylist loop returns the first pattern in list order that occurs, or reports that none does |
| App.DenylistVerdict | app.py:41-44 | the lowered text passes the denylist exactly when it holds none of the nine patterns |
| App.ValidateScript | app.py:19-46 | a script is accepted exactly when it is non-blank, contains `def main(`, and its lowered text holds no denylisted pattern; blank scripts get the empty message first; non-blank scripts without `def main(` get the missing-main message, whatever patterns they hold |
| App.ReportsFirstDangerousPattern | app.py:29-44 | a script past the first two checks is refused with the first denylisted pattern it holds, for example `import subprocess` ahead of `import os` |
| App.DangerousPatternsAreLowerCase | app.py:29-39 | every denylisted pattern is already lower case |
| App.DenylistIgnoresCase | app.py:41-44 | a denylisted pattern written in any mix of case gets the script refused, reporting that pattern or an earlier one |
| App.CreateExecutionScriptHoldsScript | app.py:49-96 | the program is the fixed head, then the script verbatim, then the fixed tail, and it holds both the success print and the failure print, each between the one result-marker pair |
| App.CreateExecutionScriptInjective | app.py:49-96 | different scripts yield different programs |
| App.FailureRecord | app.py:146-150 | the fallback record has exactly the keys `result`, `stdout` and `error`, a null result, and the given stdout and error texts |
| App.DecodedResult | app.py:133-143 | a document is decoded exactly when both markers occur and the extracted text parses, and it is the parsed text |
| App.ExecuteWithNsjail | app.py:132-163 | the decoded payload when there is one; otherwise a null-result record with the full stdout and stderr, or "Failed to parse execution result" when stderr is empty; a timeout record with "Script execution timed out after 30 seconds"; "Execution error: " plus the exception text otherwise |
| App.ReturnCodeIgnored | app.py:132-150 | the child's exit code never changes the result |
| App.FallbackAlwaysExplains | app.py:146-163 | whenever no document is decoded, the record has a null result and a non-empty error text |
| App.ExecuteScript | app.py:172-196 | a missing field gives 400; a refused script gives 400 with the refusal message and is never run; exactly the accepted scripts are wrapped and run with a 30-second limit, and they always answer 200 with the interpreted outcome |
| App.StatusTellsWhetherScriptRan | app.py:187-196 | status 200 exactly when the script ran, and 400 exactly when it did not |
| App.WrapperLineDecodes | app.py:132-141 | a run that prints only the wrapper's line yields that payload's document: with the corrected extraction for any payload, as written for a payload without an end marker of its own |
| App.AcceptedScriptReturnsPrintedDocument | app.py:187-196 | end to end, an accepted script whose program prints only the wrapper's line within the limit gets the printed document with 200: with the corrected extraction whatever the document holds, as written when it holds no end marker |
| App.NoMainScriptRejected | app.py:26-27 | `print('no main')` is refused with 400 for lacking `main()` |
| AppMinimal.MentionsImport | app-minimal.py:27 | a module is flagged only if its name occurs in the script |
| AppMinimal.FlaggedImportsFrom | app-minimal.py:25-28 | the warning loop flags exactly the listed modules that the script imports (`import m` or `from m`) |
| AppMinimal.ValidateScript | app-minimal.py:17-30 | a script is accepted exactly when it is non-blank and contains `def main(`, whatever it imports |
| AppMinimal.WrapperScriptHoldsScript | app-minimal.py:129-170 | the program is the fixed head, then the script verbatim, then the fixed tail, and it prints success between the result markers and failure between the error markers |
| AppMinimal.WrapperScriptInjective | app-minimal.py:129-170 | different scripts yield different programs |
| AppMinimal.SelectRunner | app-minimal.py:177-180 | nsjail runs the program exactly when `USE_NSJAIL` is set and the binary is installed |
| AppMinimal.TimeLimit | app-minimal.py:41-72 | the subprocess limit is exactly 30 seconds, and nsjail gets five more |
| AppMinimal.TimeoutMessage | app-minimal.py:51-83 | the subprocess times out with exactly "Execution timed out after 30 seconds" and nsjail with exactly "Execution timed out"; both start with "Execution timed out" |
| AppMinimal.FailurePrefix | app-minimal.py:53-85 | other failures are prefixed "Execution error: " for the subprocess and "nsjail execution error: " for nsjail |
| AppMinimal.ExecuteWith | app-minimal.py:32-85 | the run is captured exactly when the child exits within the runner's limit; otherwise the runner's timeout message, or its error prefix plus the exception text |
| AppMinimal.NsjailAllowsFiveMoreSeconds | app-minimal.py:41-72 | a child running between 30 and 35 seconds times out as a subprocess but completes under nsjail |
| AppMinimal.ErrorPayloadResponse | app-minimal.py:193-227 | an error document that is an object gives 400 with its `error` field, or "Script execution failed" without one; any other parsed document has no `.get`, so the request ends in 500 "Internal server error" |
| AppMinimal.InterpretOutput | app-minimal.py:183-215 | a complete error-marker pair decides alone: 400 with the parse-error message, or the error payload's response; 200 exactly when there is no error pair, there is a result pair and its payload parses, and then the body is that document; 400 "Failed to parse execution result" when that payload does not parse; with no pair at all, the stderr message or the no-result message |
| AppMinimal.ErrorMarkersTakePrecedence | app-minimal.py:186-197 | once both error markers occur, neither stderr nor result markers change the response, and it is never 200 |
| AppMinimal.Respond | app-minimal.py:176-224 | a runner's error becomes 400 with its message; a captured run is classified from its streams |
| AppMinimal.Execute | app-minimal.py:106-227 | a missing field gives 400; a blank script gives 400 "Script cannot be empty"; a script without `def main(` gives the missing-main message; exactly the accepted scripts are wrapped and run with the runner chosen from `USE_NSJAIL` and the binary's presence |
| AppMinimal.ValidateEmptyMessageUnreachable | app-minimal.py:121-127 | "Script content cannot be empty" never comes out of the screening, because the endpoint's own blank check answers first |
| AppMinimal.ReturnCodeIgnored | app-minimal.py:183-215 | the child's exit code never changes the response |
| AppMinimal.HungScriptTimesOut | app-minimal.py:177-224 | a child that never exits gives 400 with the chosen runner's timeout message |
| AppMinimal.AcceptedScriptReturnsPrintedDocument | app-minimal.py:199-208 | end to end, an accepted script whose program prints only the success line within the limit, with no complete error-marker pair in it, gets the printed document with 200: with the corrected extraction whatever the document holds, as written when it holds no end marker |
| Variants.MinimalAcceptsWhatFullAccepts | app-minimal.py:17-30 | every script the full screener accepts, the minimal one accepts too |
| Variants.ScreenersAgreeOnShapeChecks | app-minimal.py:19-23 | where the minimal screener refuses, the full one refuses with the same message |
| Variants.ImportOsReported | app.py:29-44 | a script past the first two checks that imports `os` in any case, and has no letter `b`, is refused for `import os` |
| Variants.FreeWithoutDenylistLetters | app.py:29-44 | a script without the letters p, x, v and l in either case holds no denylisted pattern |
| Variants.ImportOsRefusedByFull | app.py:29-44 | the `import os` example script is refused, naming `import os` |
| Variants.ImportOsAcceptedByMinimal | app-minimal.py:17-30 | the same script is accepted by the minimal variant, which only flags `os` for its warning |
| Variants.UpperCaseImportRefused | app.py:41-44 | `IMPORT OS` in capitals is refused all the same |
| Variants.SumScriptAccepted | app.py:19-46 | the `return 2 + 2` script passes both screeners |

## Left out

- HTTP plumbing is not modelled. This covers Flask routing, `request.is_json` and its 400 answers, `get_json`, `jsonify`, and the `/` and `/health` endpoints. A request is modelled only as its `script` field, or its absence.
- Request bodies that are not JSON objects, and `script` values that are not strings, are not modelled. In the source:
  - app.py answers 400 with the missing-field message for every falsy body (`null`, `0`, `false`, `""`, `[]`), through `not data` (app.py:182).
  - app-minimal.py has no such test. An empty string or list body gets the missing-field 400 (app-minimal.py:116). A `null`, number or boolean body makes `'script' not in data` raise `TypeError`, which ends in 500 "Internal server error" (app-minimal.py:225-227).
  - In both, a non-empty string or list body without a `'script'` element gets the missing-field 400. A body that holds one, or a non-zero number or `true` in app.py, raises `TypeError` and gives 500.
  - A falsy `script` that is not a string (`0`, `[]`, `null`) gives "Script content cannot be empty" in app.py (app.py:23) and "Script cannot be empty" in app-minimal.py (app-minimal.py:121). Any other non-string `script` fails on `.strip()` and gives 500.
- File I/O, the clock and the OS are folded into `child` where the source handles their failure:
  - In app.py the file writing, `os.makedirs` and the `time.time()`-based file names sit inside the runner's `try` (app.py:103-112). Any exception they raise shows up as `CannotStart(reason)`, and so as a record with "Execution error: " plus the exception text.
  - In app-minimal.py the temp file is written before the runner's `try` (app-minimal.py:172-174), and the model does not include a failure there. A `ValueError` raised there, such as a `UnicodeEncodeError`, is caught at app-minimal.py:223-224 and answers 400 with its text. Any other failure ends in 500 "Internal server error" (app-minimal.py:225-227).
  - `os.unlink` failures are swallowed in both variants (app.py:165-169, app-minimal.py:218-221), so cleanup never changes a response; it is not modelled.
- The 500 handler of `app.py` (app.py:198-204) is not modelled, because no modelled input reaches it.
- The runtime behaviour of the wrapper is not modelled: `redirect_stdout`, the JSON-serialisability check, `type(result).__name__`, and `json.dumps`. The wrapper is text in the model. What the child prints is an input. A launched script whose `main` raises `ValueError("Script content cannot be empty")` does get that message back from app-minimal.py, through its error markers.
- The JSON grammar is not modelled; `json.loads` is the `parse` parameter.
- App.DecodedResult: takes every failure of `json.loads` for `JSONDecodeError`. `json.loads` can also raise `RecursionError` on very deep nesting, or a plain `ValueError` on an integer literal longer than the interpreter's digit limit. In app.py those escape `except json.JSONDecodeError` (app.py:142) and become the "Execution error: " record (app.py:158-163), which `App.ExecuteWithNsjail` does not produce for a completed run.
- AppMinimal.InterpretOutput: takes every failure of `json.loads` for `JSONDecodeError` too. In app-minimal.py a plain `ValueError` from `json.loads` gives 400 with its own text (app-minimal.py:223-224), and a `RecursionError` gives 500 (app-minimal.py:225-227). The model gives only the two parse-error messages.
- Logging is not modelled. `AppMinimal.FlaggedImportsFrom` gives the list of modules that would be logged.
- Reading `USE_NSJAIL` and checking for the nsjail binary are boolean inputs.
- The nsjail configuration and its resource limits are not modelled.
- PyStr.LowerChar: lowers ASCII letters only. Python's `str.lower` also lowers other letters, and two non-ASCII characters give ASCII letters: the Kelvin sign U+212A gives `k`, and U+0130 gives `i` followed by U+0307. The denylist verdict is unchanged all the same. No denylisted pattern contains `k`. An `i` produced from U+0130 is always followed by the non-ASCII U+0307, so it could only end a match, and no pattern ends in `i`.
- Scripts holding a lone surrogate (a JSON `\ud800` escape that Python's `json` keeps) cannot be represented, because a Dafny `string` holds Unicode scalar values only. In app-minimal.py such a script passes screening, and writing the temp file raises `UnicodeEncodeError`, which answers 400 with the codec's message (app-minimal.py:172-174, 223-224). In app.py the same write sits inside the runner's `try` (app.py:111-112), so the answer is the 200 "Execution error: " record.
- Sandbox.Run: does not model the newline translation of `text=True`. `subprocess.run(..., text=True)` decodes the captured streams and turns "\r\n" and "\r" into "\n". The model takes the streams of `Exits` to be that delivered text already, so `Run` passes them on unchanged.
- Sandbox.Run: the timeout boundary is modelled as "running time greater than the limit". Timer granularity inside `subprocess.run` is not modelled.

## Findings

| source | as written | input that shows it | evidently intended | confidence | as-written member | corrected member |
|---|---|---|---|---|---|---|
| app.py:137 | the payload ends at the FIRST end marker in stdout (app-minimal.py does the same for both pairs) | `def main():\n    return "__RESULT_END__"`: the wrapper prints `{"result": "__RESULT_END__", "stdout": "", "error": null}` between the markers, and the slice is only `{"result": "`, which does not parse | end the payload at the last end marker (`output.rfind(end_marker)`), which is the one the wrapper prints | high, not executed | Markers.PayloadHoldingEndIsCut | Markers.LastEndRecoversAnyPayload |

`Markers.ExtractPayload` is the extraction as written, and `Markers.ExtractRecoversPayload` states when it still recovers the payload. `Markers.ExtractPayloadToLastEnd` is the corrected extraction. `Markers.ReturningEndMarkerLosesResult` and `Markers.ReturningEndMarkerKeepsResultWhenCorrected` show the two extractions on the same output.

Both endpoints take the extraction as a parameter (`Markers.Extract`). With `FirstEnd` they are the service as written, and with `LastEnd` the corrected one. The end-to-end lemmas hold for both: as written, they need a payload without an end marker of its own; corrected, they hold for any payload.

A related limit remains in `app-minimal.py`, and the model keeps it. A success payload that holds both error markers is still classified as an error, because the error pair is checked first (app-minimal.py:186). `AppMinimal.AcceptedScriptReturnsPrintedDocument` requires that no complete error-marker pair appear.

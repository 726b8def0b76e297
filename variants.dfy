/**
 * The two variants side by side: `app-minimal.py` screens less than `app.py`
 * but agrees with it on the checks both make, and the request examples the
 * service's documentation gives.
 */
module Variants {
  import opened PyStr
  import opened Http
  import App
  import AppMinimal

  /** Every script the full screener accepts, the minimal one accepts too. */
  lemma MinimalAcceptsWhatFullAccepts(script: string)
    requires App.ValidateScript(script) == Accepted
    ensures AppMinimal.ValidateScript(script) == Accepted
  {
  }

  /** Where the minimal screener refuses, the full one refuses with the same message. */
  lemma ScreenersAgreeOnShapeChecks(script: string)
    requires AppMinimal.ValidateScript(script).Rejected?
    ensures App.ValidateScript(script) == AppMinimal.ValidateScript(script)
  {
  }

  // ------------------------------------------------------- screening examples

  /**
   * A script that passes the first two checks and holds `import os` in any mix of
   * case, but no letter `b` (so not `import subprocess`), is refused for `import os`.
   */
  lemma ImportOsReported(script: string, i: nat)
    requires !IsBlank(script) && Contains(script, App.MainSignature)
    requires OccursAtIgnoringCase(script, App.DangerousPatterns[1], i)
    requires 'b' !in script && 'B' !in script
    ensures App.ValidateScript(script) == Rejected(App.DangerousCodePrefix + "import os")
  {
    assert App.DangerousPatterns[1] == "import os";
    App.DangerousPatternsAreLowerCase();
    ContainsLowerIgnoresCase(script, App.DangerousPatterns[1]);
    AbsentAfterLower(script, 'b');
    AbsentCharExcludes(Lower(script), App.DangerousPatterns[0], 9);
    App.ReportsFirstDangerousPattern(script, 1);
  }

  /**
   * Each denylisted pattern holds one of the letters p, x, v, l: a script with
   * none of them, in either case, is free of the denylist.
   */
  lemma FreeWithoutDenylistLetters(script: string)
    requires 'p' !in script && 'x' !in script && 'v' !in script && 'l' !in script
    requires 'P' !in script && 'X' !in script && 'V' !in script && 'L' !in script
    ensures App.FreeOfDangerousPatterns(script)
  {
    AbsentAfterLower(script, 'p');
    AbsentAfterLower(script, 'x');
    AbsentAfterLower(script, 'v');
    AbsentAfterLower(script, 'l');
    var l := Lower(script);
    var patterns := App.DangerousPatterns;
    AbsentCharExcludes(l, patterns[0], 2);
    AbsentCharExcludes(l, patterns[1], 2);
    AbsentCharExcludes(l, patterns[2], 4);
    AbsentCharExcludes(l, patterns[3], 1);
    AbsentCharExcludes(l, patterns[4], 1);
    AbsentCharExcludes(l, patterns[5], 1);
    AbsentCharExcludes(l, patterns[6], 2);
    AbsentCharExcludes(l, patterns[7], 2);
    AbsentCharExcludes(l, patterns[8], 6);
  }

  /** The documented example script that imports `os`, built from its lines. */
  const ImportOsLine := "import os"
  const ImportOsRest := "):\n    return os.listdir('/')"
  const ImportOsScript := ImportOsLine + "\n" + App.MainSignature + ImportOsRest

  /** The `import os` example is not blank and defines `main`. */
  lemma ImportOsScriptShape()
    ensures !IsBlank(ImportOsScript) && Contains(ImportOsScript, App.MainSignature)
  {
    assert !IsSpace(ImportOsScript[0]);
    OccursAtJoin(ImportOsLine + "\n", App.MainSignature, ImportOsRest);
  }

  /** The `import os` example holds no letter `b`. */
  lemma ImportOsScriptLacksB()
    ensures 'b' !in ImportOsScript && 'B' !in ImportOsScript
  {
  }

  /** The `import os` example starts with its import. */
  lemma ImportOsScriptImports()
    ensures OccursAt(ImportOsScript, ImportOsLine, 0)
  {
    assert OccursAt(ImportOsLine + "\n", ImportOsLine, 0);
    OccursAtPrefix(ImportOsLine + "\n", App.MainSignature, ImportOsLine, 0);
    OccursAtPrefix(ImportOsLine + "\n" + App.MainSignature, ImportOsRest, ImportOsLine, 0);
  }

  /** The full variant refuses the `import os` example and names the pattern. */
  lemma ImportOsRefusedByFull()
    ensures App.ValidateScript(ImportOsScript) == Rejected(App.DangerousCodePrefix + "import os")
  {
    ImportOsScriptShape();
    ImportOsScriptImports();
    ImportOsScriptLacksB();
    ImportOsReported(ImportOsScript, 0);
  }

  /** The minimal variant accepts the same script, only flagging `os` for its warning log. */
  lemma ImportOsAcceptedByMinimal()
    ensures AppMinimal.ValidateScript(ImportOsScript) == Accepted
    ensures "os" in AppMinimal.FlaggedImportsFrom(ImportOsScript, 0)
  {
    ImportOsScriptShape();
    ImportOsScriptImports();
    assert "import " + AppMinimal.DangerousImports[0] == ImportOsLine;
  }

  /** The same import in capitals. */
  const UpperImportLine := "IMPORT OS"
  const UpperImportRest := "):\n    return 1"
  const UpperImportScript := UpperImportLine + "\n" + App.MainSignature + UpperImportRest

  /** The capitalised example is not blank and defines `main`. */
  lemma UpperImportScriptShape()
    ensures !IsBlank(UpperImportScript) && Contains(UpperImportScript, App.MainSignature)
  {
    assert !IsSpace(UpperImportScript[0]);
    OccursAtJoin(UpperImportLine + "\n", App.MainSignature, UpperImportRest);
  }

  /** The capitalised example starts with `import os` up to case. */
  lemma UpperImportScriptImports()
    ensures OccursAtIgnoringCase(UpperImportScript, App.DangerousPatterns[1], 0)
  {
    assert UpperImportScript[..9] == UpperImportLine;
  }

  /** The capitalised example holds no letter `b`. */
  lemma UpperImportScriptLacksB()
    ensures 'b' !in UpperImportScript && 'B' !in UpperImportScript
  {
  }

  /** Capitals do not get `import os` past the full screener: the denylist runs on the lowered text. */
  lemma UpperCaseImportRefused()
    ensures App.ValidateScript(UpperImportScript) == Rejected(App.DangerousCodePrefix + "import os")
  {
    UpperImportScriptShape();
    UpperImportScriptImports();
    UpperImportScriptLacksB();
    ImportOsReported(UpperImportScript, 0);
  }

  /** The documented `return 2 + 2` script. */
  const SumRest := "):\n    return 2 + 2"
  const SumScript := App.MainSignature + SumRest

  /** The `return 2 + 2` script is not blank and defines `main`. */
  lemma SumScriptShape()
    ensures !IsBlank(SumScript) && Contains(SumScript, App.MainSignature)
  {
    assert !IsSpace(SumScript[0]);
    OccursAtJoin([], App.MainSignature, SumRest);
    assert [] + App.MainSignature + SumRest == SumScript;
  }

  /** The `return 2 + 2` script holds none of the lower-case letters p, x, v, l. */
  lemma SumScriptLowerLetters()
    ensures 'p' !in SumScript && 'x' !in SumScript && 'v' !in SumScript && 'l' !in SumScript
  {
  }

  /** The `return 2 + 2` script holds none of the capitals P, X, V, L. */
  lemma SumScriptUpperLetters()
    ensures 'P' !in SumScript && 'X' !in SumScript && 'V' !in SumScript && 'L' !in SumScript
  {
  }

  /** The `return 2 + 2` script holds no denylisted pattern. */
  lemma SumScriptFree()
    ensures App.FreeOfDangerousPatterns(SumScript)
  {
    SumScriptLowerLetters();
    SumScriptUpperLetters();
    FreeWithoutDenylistLetters(SumScript);
  }

  /** The `return 2 + 2` script passes both screeners. */
  lemma SumScriptAccepted()
    ensures App.ValidateScript(SumScript) == Accepted
    ensures AppMinimal.ValidateScript(SumScript) == Accepted
  {
    SumScriptShape();
    SumScriptFree();
  }
}

/** The ATS optimiser page (src/pages/ATSOptimizer.tsx): a guarded
    optimisation whose only outcome is the `isOptimized` flag, and the
    success text that echoes the target role. The 3 s timer becomes two
    steps (`StartOptimize`, then `CompleteOptimize`). */
module ATSOptimizer {
  import opened Wrappers
  import opened Text
  import FileUpload

  /** The list shown until the CV is optimised. */
  const OptimizationFeatures: seq<string> := [
    "Mots-clés optimisés pour les systèmes ATS",
    "Format LaTeX professionnel",
    "Structure adaptée au marché marocain",
    "Mise en page compatible avec tous les ATS",
    "Sections optimisées pour le parsing automatique"
  ]

  const SuccessPrefix: string := "Votre CV a été optimisé pour le poste de \""
  const SuccessSuffix: string := "\"."

  /** The sentence shown once optimised, quoting the role as typed. */
  function SuccessText(role: string): string {
    SuccessPrefix + role + SuccessSuffix
  }

  /** The success text holds the role verbatim, right after the fixed
      opening, and nothing else varies with the role. */
  lemma SuccessTextEchoesRole(role: string)
    ensures Contains(SuccessText(role), role)
    ensures SuccessText(role)[|SuccessPrefix|..|SuccessPrefix| + |role|] == role
    ensures |SuccessText(role)| == |SuccessPrefix| + |role| + |SuccessSuffix|
  {
    var t := SuccessText(role);
    assert t[|SuccessPrefix|..|SuccessPrefix| + |role|] == role;
    OccursInside(t, role, |SuccessPrefix|);
  }

  /** Different roles give different success texts. */
  lemma SuccessTextInjective(a: string, b: string)
    requires SuccessText(a) == SuccessText(b)
    ensures a == b
  {
    SuccessTextEchoesRole(a);
    SuccessTextEchoesRole(b);
  }

  /** The guard `!cvFile || !targetRole`: no file, or an empty role. The
      role is not trimmed, so a role of spaces passes. */
  predicate OptimizeBlocked(cvFile: Option<FileUpload.FileInfo>, targetRole: string) {
    cvFile.None? || targetRole == ""
  }

  /** The page's state. `pending` counts the optimisations whose timer has
      not fired. */
  class OptimizerPage {
    var cvFile: Option<FileUpload.FileInfo>
    var targetRole: string
    var isOptimizing: bool
    var isOptimized: bool
    var pending: nat

    ghost predicate Valid()
      reads this`isOptimizing, this`pending
    {
      isOptimizing ==> pending > 0
    }

    constructor()
      ensures Valid()
      ensures cvFile == None && targetRole == "" && !isOptimizing && !isOptimized && pending == 0
    {
      cvFile := None;
      targetRole := "";
      isOptimizing := false;
      isOptimized := false;
      pending := 0;
    }

    /** The upload widget's `onFileSelect`. */
    method SelectFile(f: FileUpload.FileInfo)
      requires Valid()
      modifies this
      ensures Valid()
      ensures cvFile == Some(f) && targetRole == old(targetRole)
      ensures isOptimizing == old(isOptimizing) && isOptimized == old(isOptimized) && pending == old(pending)
    {
      cvFile := Some(f);
    }

    /** The role input's `onChange`, which stays live after optimisation,
        so the success text follows later edits. */
    method SetTargetRole(text: string)
      requires Valid()
      modifies this
      ensures Valid()
      ensures targetRole == text && cvFile == old(cvFile)
      ensures isOptimizing == old(isOptimizing) && isOptimized == old(isOptimized) && pending == old(pending)
    {
      targetRole := text;
    }

    /** The optimise button's `disabled` condition: the handler's guard, or
        an optimisation in progress. */
    function OptimizeDisabled(): (d: bool)
      reads this
      ensures !d <==> !isOptimizing && cvFile.Some? && |targetRole| > 0
    {
      isOptimizing || OptimizeBlocked(cvFile, targetRole)
    }

    /** `handleOptimize` up to its `await`: nothing when blocked; otherwise
        the spinner on and a timer started. */
    method StartOptimize()
      requires Valid()
      modifies this
      ensures Valid()
      ensures OptimizeBlocked(old(cvFile), old(targetRole)) ==> unchanged(this)
      ensures !OptimizeBlocked(old(cvFile), old(targetRole)) ==> isOptimizing && pending == old(pending) + 1
      ensures cvFile == old(cvFile) && targetRole == old(targetRole) && isOptimized == old(isOptimized)
    {
      if cvFile.None? || targetRole == "" {
        return;
      }
      isOptimizing := true;
      pending := pending + 1;
    }

    /** The rest of `handleOptimize` when a timer fires: optimised, the
        spinner off, the role untouched. */
    method CompleteOptimize()
      requires Valid() && pending > 0
      modifies this
      ensures Valid()
      ensures isOptimized && !isOptimizing && pending == old(pending) - 1
      ensures cvFile == old(cvFile) && targetRole == old(targetRole)
    {
      isOptimized := true;
      isOptimizing := false;
      pending := pending - 1;
    }

    /** What the result panel shows: the feature list until optimised, then
        the success text for the current role. */
    function ResultPanel(): (shown: seq<string>)
      reads this
      ensures !isOptimized ==> shown == OptimizationFeatures
      ensures isOptimized ==> shown == [SuccessText(targetRole)] && Contains(shown[0], targetRole)
    {
      if isOptimized then
        SuccessTextEchoesRole(targetRole);
        [SuccessText(targetRole)]
      else
        OptimizationFeatures
    }
  }
}

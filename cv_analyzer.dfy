/** The CV/offer comparison page (src/pages/CVAnalyzer.tsx): a guarded
    analysis that resolves to a fixed report, the message band of its
    score, and the reset. The 2.5 s timer becomes two steps
    (`StartAnalyze`, then `CompleteAnalyze`). */
module CVAnalyzer {
  import opened Wrappers
  import FileUpload
  import ScoreRing

  datatype AnalysisResult = AnalysisResult(
    matchScore: int,
    commonSkills: seq<string>,
    missingSkills: seq<string>,
    recommendations: seq<string>)

  /** The report every analysis resolves to. */
  const MockAnalysis: AnalysisResult := AnalysisResult(
    78,
    ["Python", "SQL", "Data Analysis", "Machine Learning", "Git"],
    ["Kubernetes", "AWS", "Scala"],
    [ "Ajoutez des certifications cloud (AWS/Azure) pour améliorer votre profil",
      "Mentionnez des projets concrets avec des métriques de résultats",
      "Incluez votre niveau de français et d'anglais" ])

  const ExcellentMessage: string := "Excellent match! Votre profil correspond très bien."
  const GoodMessage: string := "Bon match. Quelques améliorations possibles."
  const AverageMessage: string := "Match moyen. Consultez les recommandations ci-dessous."

  /** The sentence under the gauge: >= 80 excellent, >= 60 good, else
      average. */
  function MatchMessage(score: int): (m: string)
    ensures m == ExcellentMessage <==> score >= 80
    ensures m == GoodMessage <==> 60 <= score < 80
    ensures m == AverageMessage <==> score < 60
  {
    if score >= 80 then ExcellentMessage
    else if score >= 60 then GoodMessage
    else AverageMessage
  }

  /** The message thresholds are two of the gauge's: an excellent message
      goes with the success band, a good one with the primary band, and an
      average one with the two lowest bands. */
  lemma MessageAgreesWithGauge(score: int)
    ensures MatchMessage(score) == ExcellentMessage <==> ScoreRing.Classify(score) == ScoreRing.Success
    ensures MatchMessage(score) == GoodMessage <==> ScoreRing.Classify(score) == ScoreRing.Primary
    ensures MatchMessage(score) == AverageMessage <==>
              ScoreRing.Classify(score) in {ScoreRing.Warning, ScoreRing.Destructive}
  {
  }

  /** The fixed report: 78 with 5 common skills, 3 missing and 3
      recommendations, read as a good match on the primary band. */
  lemma MockAnalysisShape()
    ensures MockAnalysis.matchScore == 78
    ensures |MockAnalysis.commonSkills| == 5 && |MockAnalysis.missingSkills| == 3
    ensures |MockAnalysis.recommendations| == 3
    ensures MatchMessage(MockAnalysis.matchScore) == GoodMessage
    ensures ScoreRing.Classify(MockAnalysis.matchScore) == ScoreRing.Primary
  {
    MessageAgreesWithGauge(78);
  }

  /** The guard `!cvFile && !jobDescription`: no file and an empty
      description. A description of spaces is not empty. */
  predicate AnalyzeBlocked(cvFile: Option<FileUpload.FileInfo>, jobDescription: string) {
    cvFile.None? && jobDescription == ""
  }

  /** The page's state. `pending` counts the analyses whose timer has not
      fired. */
  class AnalyzerPage {
    var cvFile: Option<FileUpload.FileInfo>
    var jobDescription: string
    var isAnalyzing: bool
    var result: Option<AnalysisResult>
    var pending: nat

    ghost predicate Valid()
      reads this`isAnalyzing, this`pending, this`result
    {
      && (isAnalyzing ==> pending > 0)
      && (result.Some? ==> result.value == MockAnalysis)
    }

    constructor()
      ensures Valid()
      ensures cvFile == None && jobDescription == "" && !isAnalyzing && result == None && pending == 0
    {
      cvFile := None;
      jobDescription := "";
      isAnalyzing := false;
      result := None;
      pending := 0;
    }

    /** The upload widget's `onFileSelect`; the form is shown only while
        there is no result. */
    method SelectFile(f: FileUpload.FileInfo)
      requires Valid() && result.None?
      modifies this
      ensures Valid()
      ensures cvFile == Some(f) && jobDescription == old(jobDescription)
      ensures isAnalyzing == old(isAnalyzing) && result == old(result) && pending == old(pending)
    {
      cvFile := Some(f);
    }

    /** The description's `onChange`. */
    method SetDescription(text: string)
      requires Valid() && result.None?
      modifies this
      ensures Valid()
      ensures jobDescription == text && cvFile == old(cvFile)
      ensures isAnalyzing == old(isAnalyzing) && result == old(result) && pending == old(pending)
    {
      jobDescription := text;
    }

    /** The analyse button's `disabled` condition: the handler's guard, or
        an analysis in progress. */
    function AnalyzeDisabled(): (d: bool)
      reads this
      ensures d <==> isAnalyzing || (cvFile.None? && |jobDescription| == 0)
    {
      isAnalyzing || AnalyzeBlocked(cvFile, jobDescription)
    }

    /** `handleAnalyze` up to its `await`: nothing when blocked; otherwise
        the spinner on and a timer started. */
    method StartAnalyze()
      requires Valid()
      modifies this
      ensures Valid()
      ensures AnalyzeBlocked(old(cvFile), old(jobDescription)) ==> unchanged(this)
      ensures !AnalyzeBlocked(old(cvFile), old(jobDescription)) ==> isAnalyzing && pending == old(pending) + 1
      ensures cvFile == old(cvFile) && jobDescription == old(jobDescription) && result == old(result)
    {
      if cvFile.None? && jobDescription == "" {
        return;
      }
      isAnalyzing := true;
      pending := pending + 1;
    }

    /** The rest of `handleAnalyze` when a timer fires: the fixed report,
        and the spinner off. */
    method CompleteAnalyze()
      requires Valid() && pending > 0
      modifies this
      ensures Valid()
      ensures result == Some(MockAnalysis) && !isAnalyzing && pending == old(pending) - 1
      ensures cvFile == old(cvFile) && jobDescription == old(jobDescription)
    {
      result := Some(MockAnalysis);
      isAnalyzing := false;
      pending := pending - 1;
    }

    /** `resetAnalysis`, behind the "Nouvelle analyse" button shown with a
        result: the result, the file and the description are cleared, so
        the guard blocks again until new input arrives. */
    method ResetAnalysis()
      requires Valid() && result.Some?
      modifies this
      ensures Valid()
      ensures result == None && cvFile == None && jobDescription == ""
      ensures AnalyzeBlocked(cvFile, jobDescription)
      ensures isAnalyzing == old(isAnalyzing) && pending == old(pending)
    {
      result := None;
      cvFile := None;
      jobDescription := "";
    }
  }
}

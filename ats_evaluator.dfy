/** The ATS evaluation page (src/pages/ATSEvaluator.tsx): a guarded
    evaluation that resolves to a fixed report of 14 scored categories and
    their rounded mean, the colour bands of a score, the one-at-a-time
    expansion of a category's feedback, and the reset. The 3 s timer
    becomes two steps (`StartEvaluate`, then `CompleteEvaluate`). */
module ATSEvaluator {
  import opened Wrappers
  import FileUpload
  import ScoreRing

  datatype Category = Category(name: string, score: int, feedback: string)

  const Contact := Category("Contact et Coordonnées", 95, "Excellent! Toutes les informations essentielles sont présentes.")
  const Resume := Category("Résumé Professionnel", 75, "Bon résumé, mais pourrait être plus impactant avec des métriques.")
  const Experience := Category("Expérience Professionnelle", 85, "Bien structuré avec des résultats quantifiables.")
  const Education := Category("Formation", 90, "Formation bien présentée et pertinente.")
  const TechSkills := Category("Compétences Techniques", 70, "Ajoutez plus de mots-clés spécifiques au domaine.")
  const Languages := Category("Compétences Linguistiques", 80, "Niveaux clairement indiqués.")
  const Certifications := Category("Certifications", 60, "Envisagez d'ajouter des certifications reconnues.")
  const Projects := Category("Projets", 65, "Décrivez l'impact de vos projets avec des chiffres.")
  const Layout := Category("Mise en Page", 85, "Format clair et professionnel.")
  const Length := Category("Longueur", 90, "Longueur appropriée pour votre niveau d'expérience.")
  const Keywords := Category("Mots-clés ATS", 72, "Augmentez la densité des mots-clés pertinents.")
  const ActionVerbs := Category("Action Verbs", 78, "Bonne utilisation des verbes d'action.")
  const Consistency := Category("Cohérence", 88, "Style cohérent tout au long du document.")
  const Readability := Category("Lisibilité", 82, "Bonne lisibilité, police et espacement appropriés.")

  /** The fourteen criteria, in display order. */
  const MockCategories: seq<Category> := [
    Contact, Resume, Experience, Education, TechSkills, Languages, Certifications,
    Projects, Layout, Length, Keywords, ActionVerbs, Consistency, Readability
  ]

  const Summary: string :=
    "Votre CV montre un bon niveau de professionnalisme. Pour améliorer votre score, concentrez-vous "
    + "sur l'ajout de certifications et l'optimisation des mots-clés ATS."

  /** `cs.reduce((acc, cat) => acc + cat.score, 0)`, folded from the left. */
  function SumScores(cs: seq<Category>): int {
    if |cs| == 0 then 0 else SumScores(cs[..|cs| - 1]) + cs[|cs| - 1].score
  }

  predicate IsMinScore(cs: seq<Category>, m: int) {
    (exists k :: 0 <= k < |cs| && cs[k].score == m) && (forall k :: 0 <= k < |cs| ==> m <= cs[k].score)
  }

  predicate IsMaxScore(cs: seq<Category>, m: int) {
    (exists k :: 0 <= k < |cs| && cs[k].score == m) && (forall k :: 0 <= k < |cs| ==> cs[k].score <= m)
  }

  /** `Math.round`: the nearest integer, halves rounded up. */
  function JsRound(x: real): (n: int)
    ensures n as real - 0.5 <= x < n as real + 0.5
  {
    (x + 0.5).Floor
  }

  /** `Math.round(sum / length)`. */
  function AverageScore(cs: seq<Category>): int
    requires |cs| > 0
  {
    JsRound(SumScores(cs) as real / |cs| as real)
  }

  /** Bounded scores bound their sum. */
  lemma {:induction false} SumBetween(cs: seq<Category>, lo: int, hi: int)
    requires forall k :: 0 <= k < |cs| ==> lo <= cs[k].score <= hi
    ensures |cs| * lo <= SumScores(cs) <= |cs| * hi
    decreases |cs|
  {
    if |cs| > 0 {
      SumBetween(cs[..|cs| - 1], lo, hi);
    }
  }

  /** The rounded mean lies between the lowest and the highest score. */
  lemma AverageBetween(cs: seq<Category>, lo: int, hi: int)
    requires |cs| > 0
    requires forall k :: 0 <= k < |cs| ==> lo <= cs[k].score <= hi
    ensures lo <= AverageScore(cs) <= hi
  {
    SumBetween(cs, lo, hi);
    QuotientBetween(SumScores(cs) as real, |cs| as real, lo as real, hi as real);
  }

  /** Dividing `lo * n <= s <= hi * n` by a positive `n`. */
  lemma QuotientBetween(s: real, n: real, lo: real, hi: real)
    requires n > 0.0 && lo * n <= s <= hi * n
    ensures lo <= s / n <= hi
  {
    assert s / n * n == s;
  }

  /** The rounded mean lies between the minimum and the maximum score, so
      scores within [0, 100] give an overall score within [0, 100]. */
  lemma AverageWithinMinMax(cs: seq<Category>, lo: int, hi: int)
    requires |cs| > 0 && IsMinScore(cs, lo) && IsMaxScore(cs, hi)
    ensures lo <= AverageScore(cs) <= hi
  {
    AverageBetween(cs, lo, hi);
  }

  /** The sum of one more element of a list. */
  lemma SumStep(cs: seq<Category>, k: nat)
    requires k < |cs|
    ensures SumScores(cs[..k + 1]) == SumScores(cs[..k]) + cs[k].score
  {
    assert cs[..k + 1][..k] == cs[..k];
  }

  /** The fourteen scores sum to 1115; 1115 / 14 = 79.64..., which rounds to
      80, and the gauge draws 80 in its success band. */
  lemma MockAverageIs80()
    ensures |MockCategories| == 14
    ensures SumScores(MockCategories) == 1115
    ensures AverageScore(MockCategories) == 80
    ensures ScoreRing.Classify(AverageScore(MockCategories)) == ScoreRing.Success
  {
    var cs := MockCategories;
    assert cs[..14] == cs;
    SumStep(cs, 0); SumStep(cs, 1); SumStep(cs, 2); SumStep(cs, 3); SumStep(cs, 4);
    SumStep(cs, 5); SumStep(cs, 6); SumStep(cs, 7); SumStep(cs, 8); SumStep(cs, 9);
    SumStep(cs, 10); SumStep(cs, 11); SumStep(cs, 12); SumStep(cs, 13);
    assert SumScores(cs[..0]) == 0;
    assert 1115.0 / 14.0 + 0.5 == 1122.0 / 14.0;
  }

  datatype EvaluationResult = EvaluationResult(overallScore: int, categories: seq<Category>, summary: string)

  /** What a completed evaluation reports: the rounded mean of the fixed
      categories, the categories themselves, and the fixed summary. */
  function Evaluation(): (r: EvaluationResult)
    ensures r.categories == MockCategories && |r.categories| == 14
    ensures r.overallScore == 80 && r.summary == Summary
  {
    MockAverageIs80();
    EvaluationResult(AverageScore(MockCategories), MockCategories, Summary)
  }

  /** The three colour bands the page uses for a category score. */
  datatype Tone = SuccessTone | WarningTone | DestructiveTone

  function ScoreTone(score: int): (t: Tone)
    ensures t == SuccessTone <==> score >= 80
    ensures t == WarningTone <==> 60 <= score < 80
    ensures t == DestructiveTone <==> score < 60
  {
    if score >= 80 then SuccessTone else if score >= 60 then WarningTone else DestructiveTone
  }

  function ToneName(t: Tone): string {
    match t
    case SuccessTone => "success"
    case WarningTone => "warning"
    case DestructiveTone => "destructive"
  }

  /** getScoreColor: the text colour of a score. */
  function GetScoreColor(score: int): (cls: string)
    ensures cls == "text-success" <==> score >= 80
    ensures cls == "text-warning" <==> 60 <= score < 80
    ensures cls == "text-destructive" <==> score < 60
  {
    if score >= 80 then "text-success"
    else if score >= 60 then "text-warning"
    else "text-destructive"
  }

  /** getProgressColor: the bar colour of a score (declared by the page but
      not passed to any element). */
  function GetProgressColor(score: int): (cls: string)
    ensures cls == "bg-success" <==> score >= 80
    ensures cls == "bg-warning" <==> 60 <= score < 80
    ensures cls == "bg-destructive" <==> score < 60
  {
    if score >= 80 then "bg-success"
    else if score >= 60 then "bg-warning"
    else "bg-destructive"
  }

  /** The two helpers share their bands: for every score both name the
      same tone, one with the "text-" prefix, the other with "bg-". */
  lemma ColorsShareBands(score: int)
    ensures GetScoreColor(score) == "text-" + ToneName(ScoreTone(score))
    ensures GetProgressColor(score) == "bg-" + ToneName(ScoreTone(score))
  {
  }

  /** The expansion after a click on the category named `name`: the open
      one closes, any other opens alone. */
  function Toggled(expanded: Option<string>, name: string): (e: Option<string>)
    ensures e == Some(name) <==> expanded != Some(name)
    ensures e.Some? ==> e == Some(name)
  {
    if expanded == Some(name) then None else Some(name)
  }

  /** The names of the fourteen categories are pairwise distinct, so the
      single expanded name opens at most one category. */
  lemma AtMostOneExpanded(expanded: Option<string>, i: nat, j: nat)
    requires i < j < |MockCategories|
    ensures !(expanded == Some(MockCategories[i].name) && expanded == Some(MockCategories[j].name))
  {
    DistinctNames(i, j);
  }

  lemma DistinctNames(i: nat, j: nat)
    requires i < j < |MockCategories|
    ensures MockCategories[i].name != MockCategories[j].name
  {
  }

  /** The page's state. `pending` counts the evaluations whose timer has
      not fired; the handler itself does not check `isEvaluating`. */
  class EvaluatorPage {
    var cvFile: Option<FileUpload.FileInfo>
    var isEvaluating: bool
    var result: Option<EvaluationResult>
    var expandedCategory: Option<string>
    var pending: nat

    ghost predicate Valid()
      reads this`isEvaluating, this`pending, this`result
    {
      && (isEvaluating ==> pending > 0)
      && (result.Some? ==> result.value == Evaluation())
    }

    constructor()
      ensures Valid()
      ensures cvFile == None && !isEvaluating && result == None && expandedCategory == None && pending == 0
    {
      cvFile := None;
      isEvaluating := false;
      result := None;
      expandedCategory := None;
      pending := 0;
    }

    /** The upload widget's `onFileSelect`; the widget is shown only while
        there is no result. */
    method SelectFile(f: FileUpload.FileInfo)
      requires Valid() && result.None?
      modifies this
      ensures Valid()
      ensures cvFile == Some(f)
      ensures isEvaluating == old(isEvaluating) && result == old(result)
      ensures expandedCategory == old(expandedCategory) && pending == old(pending)
    {
      cvFile := Some(f);
    }

    /** The evaluate button's `disabled` condition. */
    function EvaluateDisabled(): (d: bool)
      reads this
      ensures !d <==> !isEvaluating && cvFile.Some?
    {
      isEvaluating || cvFile.None?
    }

    /** `handleEvaluate` up to its `await`: nothing without a file;
        otherwise the spinner on and a timer started. */
    method StartEvaluate()
      requires Valid()
      modifies this
      ensures Valid()
      ensures old(cvFile).None? ==> unchanged(this)
      ensures old(cvFile).Some? ==> isEvaluating && pending == old(pending) + 1
      ensures cvFile == old(cvFile) && result == old(result) && expandedCategory == old(expandedCategory)
    {
      if cvFile.None? {
        return;
      }
      isEvaluating := true;
      pending := pending + 1;
    }

    /** The rest of `handleEvaluate` when a timer fires: the fixed report,
        overall score 80 over the 14 categories, and the spinner off. */
    method CompleteEvaluate()
      requires Valid() && pending > 0
      modifies this
      ensures Valid()
      ensures result == Some(Evaluation())
      ensures result.value.overallScore == 80 && result.value.categories == MockCategories
      ensures !isEvaluating && pending == old(pending) - 1
      ensures cvFile == old(cvFile) && expandedCategory == old(expandedCategory)
    {
      result := Some(Evaluation());
      isEvaluating := false;
      pending := pending - 1;
    }

    /** A click on a category's header; the headers are shown only with a
        result. */
    method ToggleCategory(name: string)
      requires Valid() && result.Some?
      modifies this
      ensures Valid()
      ensures expandedCategory == Toggled(old(expandedCategory), name)
      ensures cvFile == old(cvFile) && isEvaluating == old(isEvaluating)
      ensures result == old(result) && pending == old(pending)
    {
      expandedCategory := if expandedCategory == Some(name) then None else Some(name);
    }

    /** "Nouvelle évaluation": the result and the file are cleared; the
        expanded category is kept, so it shows open again after the next
        evaluation. */
    method Reset()
      requires Valid() && result.Some?
      modifies this
      ensures Valid()
      ensures result == None && cvFile == None
      ensures expandedCategory == old(expandedCategory)
      ensures isEvaluating == old(isEvaluating) && pending == old(pending)
    {
      result := None;
      cvFile := None;
    }
  }
}
